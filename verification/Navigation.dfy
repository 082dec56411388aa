/** The navigation of one host: its route, its bounded back stack and the view state Back restores. */
module Navigation {
  import opened Text

  datatype Destination =
    | Sessions | Overview | Plan | Board | Graph | Delivery | Decisions | Teams | Activity | Inbox | Search | Settings

  datatype Route = Route(tab: Destination, projectId: Option<string>, epicKey: Option<string>, sourceId: Option<string>,
                         originAgentId: Option<string>, sourceRevision: Option<string>)

  /** The selection of a route without its destination. */
  datatype Scope = Scope(projectId: Option<string>, epicKey: Option<string>, sourceId: Option<string>,
                         sourceRevision: Option<string>, originAgentId: Option<string>)

  datatype SessionKey = SessionKey(projectId: Option<string>, epicKey: Option<string>)

  /** The fields a caller changes; an absent one keeps its value. */
  datatype Patch = Patch(tab: Option<Destination>, projectId: Option<Option<string>>, epicKey: Option<Option<string>>,
                         sourceId: Option<Option<string>>, originAgentId: Option<Option<string>>,
                         sourceRevision: Option<Option<string>>)

  datatype HistoryEntry = HistoryEntry(route: Route, query: string, offset: int, sessions: string,
                         overview: Scope, work: Scope, views: map<Route, string>)

  /** A host's navigation. Queries, offsets and page views are kept by route; session views, which live in
      their own store, by project and epic. A view is its serialised text. */
  datatype Nav = Nav(route: Route, back: seq<HistoryEntry>, queries: map<Route, string>, offsets: map<Route, int>,
                     overview: Scope, work: Scope, views: map<Route, string>, sessions: map<SessionKey, string>)

  const INITIAL_ROUTE := Route(Sessions, None, None, None, None, None)
  const NO_SCOPE := Scope(None, None, None, None, None)
  const DEFAULT_SESSION_VIEW := ""
  const KEPT: nat := 40

  const INITIAL := Nav(INITIAL_ROUTE, [], map[], map[], NO_SCOPE, NO_SCOPE, map[], map[])

  function ScopeOf(r: Route): Scope { Scope(r.projectId, r.epicKey, r.sourceId, r.sourceRevision, r.originAgentId) }
  function SessionKeyOf(r: Route): SessionKey { SessionKey(r.projectId, r.epicKey) }

  function Query(nav: Nav, r: Route): string { if r in nav.queries then nav.queries[r] else "" }
  function Offset(nav: Nav, r: Route): int { if r in nav.offsets then nav.offsets[r] else 0 }
  function SessionView(nav: Nav, k: SessionKey): string {
    if k in nav.sessions then nav.sessions[k] else DEFAULT_SESSION_VIEW
  }

  /** The selection becomes the scope of its destination; a scoped overview is the work context too. */
  function Remember(nav: Nav): Nav {
    var scope := ScopeOf(nav.route);
    if nav.route.tab == Overview then
      nav.(overview := scope,
           work := if scope.projectId.Some? || scope.epicKey.Some? || scope.sourceId.Some? then scope else nav.work)
    else if nav.route.tab != Sessions then nav.(work := scope)
    else nav
  }

  function Pick<T>(change: Option<T>, current: T): T { if change.Some? then change.value else current }

  function Patched(r: Route, p: Patch): Route {
    var next := Route(Pick(p.tab, r.tab), Pick(p.projectId, r.projectId), Pick(p.epicKey, r.epicKey),
                      Pick(p.sourceId, r.sourceId), Pick(p.originAgentId, r.originAgentId),
                      Pick(p.sourceRevision, r.sourceRevision));
    var moved := if p.sourceId.Some? && p.sourceId.value != r.sourceId && p.sourceRevision.None?
                 then next.(sourceRevision := None) else next;
    if moved.sourceId.None? then moved.(sourceRevision := None) else moved
  }

  /** What Back will restore of the page being left. */
  function Leave(nav: Nav): HistoryEntry {
    HistoryEntry(nav.route, Query(nav, nav.route), Offset(nav, nav.route), SessionView(nav, SessionKeyOf(nav.route)),
          nav.overview, nav.work, nav.views)
  }

  function Last<T>(s: seq<T>, n: nat): seq<T> { if |s| <= n then s else s[|s| - n..] }

  function Navigate(nav: Nav, p: Patch): Nav {
    var next := Patched(nav.route, p);
    if next == nav.route then nav
    else Remember(nav.(back := Last(nav.back, KEPT - 1) + [Leave(nav)], route := next))
  }

  function Restore(nav: Nav, e: HistoryEntry): Nav {
    nav.(route := e.route, queries := nav.queries[e.route := e.query], offsets := nav.offsets[e.route := e.offset],
         overview := e.overview, work := e.work, views := e.views,
         sessions := nav.sessions[SessionKeyOf(e.route) := e.sessions])
  }

  function GoBack(nav: Nav): Nav {
    if nav.back == [] then nav
    else Restore(nav.(back := nav.back[..|nav.back| - 1]), nav.back[|nav.back| - 1])
  }

  datatype NavOp =
    | Go(patch: Patch)
    | Back
    | WritePage(route: Route, view: string)
    | WriteView(route: Route, query: Option<string>, offset: Option<int>)
    | WriteSession(key: SessionKey, view: string)
    | RefreshRevision(revision: Option<string>)
    | RefreshSource(sourceId: string, revision: Option<string>)

  function Apply(nav: Nav, op: NavOp): Nav {
    match op
    case Go(patch) => Navigate(nav, patch)
    case Back => GoBack(nav)
    case WritePage(route, view) => nav.(views := nav.views[route := view])
    case WriteView(route, query, offset) =>
      nav.(queries := if query.Some? then nav.queries[route := query.value] else nav.queries,
           offsets := if offset.Some? then nav.offsets[route := offset.value] else nav.offsets)
    case WriteSession(key, view) => nav.(sessions := nav.sessions[key := view])
    case RefreshRevision(revision) => Remember(nav.(route := nav.route.(sourceRevision := revision)))
    case RefreshSource(sourceId, revision) =>
      Remember(nav.(route := nav.route.(sourceId := Some(sourceId), sourceRevision := revision)))
  }

  function Run(nav: Nav, ops: seq<NavOp>): Nav
    decreases |ops|
  {
    if ops == [] then nav else Run(Apply(nav, ops[0]), ops[1..])
  }

  // ---------------------------------------------------------------- scopes and the bound, over every run

  /** The scope is the route's own selection. */
  predicate IsScope(s: Scope, r: Route) {
    s.projectId == r.projectId && s.epicKey == r.epicKey && s.sourceId == r.sourceId &&
    s.sourceRevision == r.sourceRevision && s.originAgentId == r.originAgentId
  }

  predicate Selects(r: Route) { r.projectId.Some? || r.epicKey.Some? || r.sourceId.Some? }

  /** Off Sessions and Overview the work scope is the route's; on Overview the overview scope is, and a
      selection made there is the work scope too. */
  predicate Scoped(r: Route, overview: Scope, work: Scope) {
    && (r.tab == Overview ==> IsScope(overview, r))
    && (r.tab == Overview && Selects(r) ==> IsScope(work, r))
    && (r.tab != Overview && r.tab != Sessions ==> IsScope(work, r))
  }

  ghost predicate Inv(nav: Nav) {
    && Scoped(nav.route, nav.overview, nav.work)
    && |nav.back| <= KEPT
    && forall i :: 0 <= i < |nav.back| ==> Scoped(nav.back[i].route, nav.back[i].overview, nav.back[i].work)
  }

  lemma {:induction false} StepInv(nav: Nav, op: NavOp)
    requires Inv(nav)
    ensures Inv(Apply(nav, op))
  {
    match op
    case Go(p) =>
      var moved := nav.(back := Last(nav.back, KEPT - 1) + [Leave(nav)], route := Patched(nav.route, p));
      RememberKeeps(moved);
    case RefreshRevision(revision) =>
      RememberKeeps(nav.(route := nav.route.(sourceRevision := revision)));
    case RefreshSource(sourceId, revision) =>
      RememberKeeps(nav.(route := nav.route.(sourceId := Some(sourceId), sourceRevision := revision)));
    case _ =>
  }

  lemma {:induction false} RunInv(nav: Nav, ops: seq<NavOp>)
    requires Inv(nav)
    ensures Inv(Run(nav, ops))
    decreases |ops|
  {
    hide Inv, Apply;
    if ops != [] {
      StepInv(nav, ops[0]);
      RunInv(Apply(nav, ops[0]), ops[1..]);
    }
  }

  // ---------------------------------------------------------------- where a navigation leads

  /** One field after a change: the value given, or the one it had. */
  predicate Changed<T(==)>(change: Option<T>, before: T, after: T) {
    (change.Some? ==> after == change.value) && (change.None? ==> after == before)
  }

  /** The route a patch leads to. There is no revision without a source; a revision is given, or kept with its
      source, and a new source has none. */
  predicate Leads(from: Route, p: Patch, to: Route) {
    && Changed(p.tab, from.tab, to.tab) && Changed(p.projectId, from.projectId, to.projectId)
    && Changed(p.epicKey, from.epicKey, to.epicKey) && Changed(p.sourceId, from.sourceId, to.sourceId)
    && Changed(p.originAgentId, from.originAgentId, to.originAgentId)
    && (to.sourceId.None? ==> to.sourceRevision.None?)
    && (to.sourceId.Some? && to.sourceId == from.sourceId ==>
          Changed(p.sourceRevision, from.sourceRevision, to.sourceRevision))
    && (to.sourceId.Some? && to.sourceId != from.sourceId ==> Changed(p.sourceRevision, None, to.sourceRevision))
  }

  lemma {:induction false} PatchLeads(from: Route, p: Patch, to: Route)
    ensures Leads(from, p, to) <==> to == Patched(from, p)
  {
    if Leads(from, p, to) {
      assert to.tab == Patched(from, p).tab && to.sourceId == Patched(from, p).sourceId;
    }
  }

  /** Navigating leads there and nowhere else. Nothing at all changes if that is the same route; otherwise the page
      left is the newest of at most 40 entries, over those that were there, and no view changes. */
  lemma {:induction false} NavigateLeads(nav: Nav, p: Patch, to: Route)
    requires |nav.back| <= 40
    ensures var next := Navigate(nav, p);
      && (Leads(nav.route, p, to) <==> to == next.route)
      && (next.route == nav.route ==> next == nav)
      && (next.route != nav.route ==> LeftOnTop(nav, next))
  {
    hide Leads, Patched, Remember, Query, Offset, SessionView, SessionKeyOf;
    PatchLeads(nav.route, p, to);
    RememberKeeps(nav.(back := Last(nav.back, KEPT - 1) + [Leave(nav)], route := Patched(nav.route, p)));
  }

  predicate LeftOnTop(nav: Nav, next: Nav)
    requires |nav.back| <= 40
  {
    && |next.back| == (if |nav.back| < 40 then |nav.back| + 1 else 40)
    && next.back[|next.back| - 1].route == nav.route
    && next.back[..|next.back| - 1] == nav.back[|nav.back| - |next.back| + 1..]
    && next.queries == nav.queries && next.offsets == nav.offsets && next.views == nav.views
    && next.sessions == nav.sessions
  }

  /** A selection made elsewhere leaves the overview scope alone, and one made on Sessions, or none made on
      Overview, the work scope. */
  lemma {:induction false} ScopesKept(nav: Nav, p: Patch)
    ensures var next := Navigate(nav, p);
      && (next.route.tab != Overview ==> next.overview == nav.overview)
      && (next.route.tab == Sessions ==> next.work == nav.work)
      && (next.route.tab == Overview && !Selects(next.route) ==> next.work == nav.work)
  {
    hide Patched, Leave;
  }

  /** A view written for a route is read back there, and other routes and fields not given keep theirs; a route
      without one has no query and stands at the top. */
  lemma {:induction false} WrittenView(nav: Nav, at: Route, query: Option<string>, offset: Option<int>, other: Route)
    ensures var next := Apply(nav, WriteView(at, query, offset));
      && Changed(query, Query(nav, at), Query(next, at)) && Changed(offset, Offset(nav, at), Offset(next, at))
      && (other != at ==> Query(next, other) == Query(nav, other) && Offset(next, other) == Offset(nav, other))
      && next.route == nav.route && next.back == nav.back && next.views == nav.views
    ensures Query(INITIAL, at) == "" && Offset(INITIAL, at) == 0
  {}

  /** A session view is read back on every route of its project and epic, and no other one changes. */
  lemma {:induction false} WrittenSession(nav: Nav, project: Option<string>, epic: Option<string>, view: string,
        r: Route)
    ensures var next := Apply(nav, WriteSession(SessionKey(project, epic), view));
      && SessionView(next, SessionKeyOf(r)) ==
         (if r.projectId == project && r.epicKey == epic then view else SessionView(nav, SessionKeyOf(r)))
      && next.route == nav.route && next.back == nav.back
    ensures SessionView(INITIAL, SessionKeyOf(r)) == DEFAULT_SESSION_VIEW
  {}

  // ---------------------------------------------------------------- the unbounded stack

  /** The unbounded stack beside a navigation: every departure is pushed, every taken Back pops. */
  function Track(nav: Nav, full: seq<HistoryEntry>, op: NavOp): seq<HistoryEntry> {
    if op.Go? && Patched(nav.route, op.patch) != nav.route then full + [Leave(nav)]
    else if op.Back? && nav.back != [] && full != [] then full[..|full| - 1]
    else full
  }

  function TrackRun(nav: Nav, full: seq<HistoryEntry>, ops: seq<NavOp>): seq<HistoryEntry>
    decreases |ops|
  {
    if ops == [] then full else TrackRun(Apply(nav, ops[0]), Track(nav, full, ops[0]), ops[1..])
  }

  /** The stored history is the top of the unbounded one. */
  predicate Top(back: seq<HistoryEntry>, full: seq<HistoryEntry>) {
    |back| <= |full| && back == full[|full| - |back|..]
  }

  lemma {:induction false} TopPop(back: seq<HistoryEntry>, full: seq<HistoryEntry>)
    requires Top(back, full) && back != []
    ensures Top(back[..|back| - 1], full[..|full| - 1])
  {
    assert back[..|back| - 1] == full[..|full| - 1][|full| - |back|..];
  }

  lemma {:induction false} TrackStep(nav: Nav, full: seq<HistoryEntry>, op: NavOp)
    requires Top(nav.back, full)
    ensures Top(Apply(nav, op).back, Track(nav, full, op))
    ensures |Track(nav, full, op)| - |Apply(nav, op).back| == |full| - |nav.back| ||
            (|nav.back| >= KEPT && |Apply(nav, op).back| == KEPT)
  {
    hide Remember, Patched;
    if op.Go? && Patched(nav.route, op.patch) != nav.route {
      var more := full + [Leave(nav)];
      var back := Last(nav.back, KEPT - 1) + [Leave(nav)];
      RememberKeeps(nav.(back := back, route := Patched(nav.route, op.patch)));
      assert Top(back, more);
    } else if op.Back? && nav.back != [] {
      TopPop(nav.back, full);
    } else if op.RefreshRevision? {
      RememberKeeps(nav.(route := nav.route.(sourceRevision := op.revision)));
    } else if op.RefreshSource? {
      RememberKeeps(nav.(route := nav.route.(sourceId := Some(op.sourceId), sourceRevision := op.revision)));
    }
  }

  lemma {:induction false} RememberKeeps(nav: Nav)
    ensures Remember(nav).back == nav.back && Remember(nav).route == nav.route && Remember(nav).views == nav.views
    ensures Remember(nav).queries == nav.queries && Remember(nav).offsets == nav.offsets
    ensures Remember(nav).sessions == nav.sessions
  {}

  /** The unbounded stack stays within the bound at every step. */
  predicate Shallow(nav: Nav, full: seq<HistoryEntry>, ops: seq<NavOp>)
    decreases |ops|
  {
    |full| <= KEPT && (ops != [] ==> Shallow(Apply(nav, ops[0]), Track(nav, full, ops[0]), ops[1..]))
  }

  /** Over every run the stored history is the top of the unbounded stack, at most 40 entries of it, and
      all of it as long as the stack itself never grew past 40. */
  lemma {:induction false} HistoryIsTop(nav: Nav, full: seq<HistoryEntry>, ops: seq<NavOp>)
    requires Top(nav.back, full) && Inv(nav)
    ensures Top(Run(nav, ops).back, TrackRun(nav, full, ops)) && |Run(nav, ops).back| <= KEPT
    ensures nav.back == full && Shallow(nav, full, ops) ==> Run(nav, ops).back == TrackRun(nav, full, ops)
    decreases |ops|
  {
    hide Apply, Track;
    RunInv(nav, ops);
    if ops != [] {
      TrackStep(nav, full, ops[0]);
      StepInv(nav, ops[0]);
      if nav.back == full && Shallow(nav, full, ops) {
        var back, more := Apply(nav, ops[0]).back, Track(nav, full, ops[0]);
        assert Shallow(Apply(nav, ops[0]), more, ops[1..]);
        assert |more| <= KEPT && |back| == |more|;
        assert more[0..] == more;
      }
      HistoryIsTop(Apply(nav, ops[0]), Track(nav, full, ops[0]), ops[1..]);
    }
  }

  // ---------------------------------------------------------------- Back restores

  /** The same navigation with another history. */
  function With(nav: Nav, back: seq<HistoryEntry>): Nav { nav.(back := back) }

  /** The operations never take a Back that is not theirs, and never go more than `room` pages deep. */
  predicate Within(nav: Nav, ops: seq<NavOp>, room: nat)
    decreases |ops|
  {
    |nav.back| <= room &&
    (ops != [] ==> !(ops[0].Back? && nav.back == []) && Within(Unbounded(nav, ops[0]), ops[1..], room))
  }

  /** One operation with an unbounded history. */
  function Unbounded(nav: Nav, op: NavOp): Nav {
    With(Apply(nav, op), Track(nav, nav.back, op))
  }

  function UnboundedRun(nav: Nav, ops: seq<NavOp>): Nav
    decreases |ops|
  {
    if ops == [] then nav else UnboundedRun(Unbounded(nav, ops[0]), ops[1..])
  }

  /** A pair of histories of which the first lies, in its last part, over the kept entry and `rest`. */
  ghost predicate Over(back: seq<HistoryEntry>, kept: HistoryEntry, rest: seq<HistoryEntry>) {
    |back| > |rest| && back[|back| - |rest| - 1] == kept && back[|back| - |rest|..] == rest
  }

  lemma {:induction false} RememberWith(nav: Nav, back: seq<HistoryEntry>)
    ensures With(Remember(With(nav, back)), []) == With(Remember(nav), []) && Remember(With(nav, back)).back == back
  {
    assert ScopeOf(With(nav, back).route) == ScopeOf(nav.route);
    hide ScopeOf;
  }

  lemma {:induction false} GoOver(nav: Nav, back: seq<HistoryEntry>, kept: HistoryEntry, p: Patch)
    requires Over(back, kept, nav.back) && |nav.back| + 1 < KEPT && Patched(nav.route, p) != nav.route
    ensures With(Navigate(With(nav, back), p), []) == With(Navigate(nav, p), [])
    ensures Over(Navigate(With(nav, back), p).back, kept, nav.back + [Leave(nav)])
  {
    var next := Patched(nav.route, p);
    assert Leave(With(nav, back)) == Leave(nav);
    var moved := nav.(route := next);
    RememberWith(moved, Last(back, KEPT - 1) + [Leave(nav)]);
    RememberWith(moved, Last(nav.back, KEPT - 1) + [Leave(nav)]);
  }

  lemma {:induction false} UnboundedStep(nav: Nav, back: seq<HistoryEntry>, kept: HistoryEntry, op: NavOp)
    requires Over(back, kept, nav.back) && !(op.Back? && nav.back == []) && |Track(nav, nav.back, op)| < KEPT
    ensures With(Apply(With(nav, back), op), []) == With(Unbounded(nav, op), [])
    ensures Over(Apply(With(nav, back), op).back, kept, Unbounded(nav, op).back)
  {
    match op
    case Go(p) => if Patched(nav.route, p) != nav.route { GoOver(nav, back, kept, p); }
    case Back =>
    case RefreshRevision(revision) =>
      var moved := nav.(route := nav.route.(sourceRevision := revision));
      RememberWith(moved, back);
      RememberWith(moved, nav.back);
    case RefreshSource(sourceId, revision) =>
      var moved := nav.(route := nav.route.(sourceId := Some(sourceId), sourceRevision := revision));
      RememberWith(moved, back);
      RememberWith(moved, nav.back);
    case _ =>
  }

  lemma {:induction false} UnboundedRunsOver(nav: Nav, back: seq<HistoryEntry>, kept: HistoryEntry, ops: seq<NavOp>)
    requires Over(back, kept, nav.back) && Within(nav, ops, KEPT - 1)
    ensures With(Run(With(nav, back), ops), []) == With(UnboundedRun(nav, ops), [])
    ensures Over(Run(With(nav, back), ops).back, kept, UnboundedRun(nav, ops).back)
    decreases |ops|
  {
    if ops != [] {
      hide Apply, Track;
      UnboundedStep(nav, back, kept, ops[0]);
      var next, big := Unbounded(nav, ops[0]), Apply(With(nav, back), ops[0]);
      assert big == With(next, big.back);
      UnboundedRunsOver(next, big.back, kept, ops[1..]);
    }
  }

  /** Going somewhere, doing anything that takes its own Backs and goes at most 39 pages deeper, and
      going back restores the route, its query and offset, every page view, both scopes and the session
      view as they were on leaving. */
  lemma {:induction false} BackRestores(nav: Nav, p: Patch, ops: seq<NavOp>)
    requires Patched(nav.route, p) != nav.route
    requires Within(With(Navigate(nav, p), []), ops, KEPT - 1)
    requires UnboundedRun(With(Navigate(nav, p), []), ops).back == []
    ensures var after := GoBack(Run(Navigate(nav, p), ops));
      && after.route == nav.route
      && Query(after, nav.route) == Query(nav, nav.route) && Offset(after, nav.route) == Offset(nav, nav.route)
      && after.views == nav.views && after.overview == nav.overview && after.work == nav.work
      && SessionView(after, SessionKeyOf(nav.route)) == SessionView(nav, SessionKeyOf(nav.route))
  {
    hide Patched, Remember, Run, UnboundedRun, Within;
    RememberKeeps(nav.(back := Last(nav.back, KEPT - 1) + [Leave(nav)], route := Patched(nav.route, p)));
    var start := Navigate(nav, p);
    assert start.back[|start.back| - 1] == Leave(nav);
    assert Over(start.back, Leave(nav), []);
    assert With(With(start, []), start.back) == start;
    UnboundedRunsOver(With(start, []), start.back, Leave(nav), ops);
    var end := Run(start, ops);
    assert end.back[|end.back| - 1] == Leave(nav);
  }

  // ---------------------------------------------------------------- the host's mutable state

  class HostNavigation {
    var route: Route
    var back: seq<HistoryEntry>
    var queries: map<Route, string>
    var offsets: map<Route, int>
    var overview: Scope
    var work: Scope
    var views: map<Route, string>
    var sessions: map<SessionKey, string>

    function State(): Nav
      reads this
    {
      Nav(route, back, queries, offsets, overview, work, views, sessions)
    }

    constructor ()
      ensures State() == INITIAL
    {
      route, back, queries, offsets := INITIAL_ROUTE, [], map[], map[];
      overview, work, views, sessions := NO_SCOPE, NO_SCOPE, map[], map[];
    }

    method RememberScope()
      modifies this`overview, this`work
      ensures State() == Remember(old(State()))
    {
      var scope := ScopeOf(route);
      if route.tab == Overview {
        overview := scope;
        if scope.projectId.Some? || scope.epicKey.Some? || scope.sourceId.Some? { work := scope; }
      } else if route.tab != Sessions {
        work := scope;
      }
    }

    method Go(p: Patch) returns (r: Route)
      modifies this
      ensures State() == Navigate(old(State()), p) && r == route && Leads(old(route), p, r)
    {
      var next := Patched(route, p);
      if next != route {
        back := Last(back, KEPT - 1) + [Leave(State())];
        route := next;
        RememberScope();
      }
      r := route;
    }

    method TakeBack() returns (r: Route)
      modifies this
      ensures State() == GoBack(old(State())) && r == route
    {
      if back != [] {
        var previous := back[|back| - 1];
        back := back[..|back| - 1];
        route := previous.route;
        queries := queries[previous.route := previous.query];
        offsets := offsets[previous.route := previous.offset];
        overview, work, views := previous.overview, previous.work, previous.views;
        sessions := sessions[SessionKeyOf(previous.route) := previous.sessions];
      }
      r := route;
    }

    method WritePageView(at: Route, view: string)
      modifies this`views
      ensures State() == Apply(old(State()), WritePage(at, view))
    {
      views := views[at := view];
    }

    method WriteRouteView(at: Route, query: Option<string>, offset: Option<int>)
      modifies this`queries, this`offsets
      ensures State() == Apply(old(State()), WriteView(at, query, offset))
    {
      if query.Some? { queries := queries[at := query.value]; }
      if offset.Some? { offsets := offsets[at := offset.value]; }
    }

    method RefreshSourceRevision(revision: Option<string>) returns (r: Route)
      modifies this
      ensures State() == Apply(old(State()), RefreshRevision(revision)) && r == route
    {
      route := route.(sourceRevision := revision);
      RememberScope();
      r := route;
    }

    method RefreshContextSource(sourceId: string, revision: Option<string>) returns (r: Route)
      modifies this
      ensures State() == Apply(old(State()), RefreshSource(sourceId, revision)) && r == route
    {
      route := route.(sourceId := Some(sourceId), sourceRevision := revision);
      RememberScope();
      r := route;
    }
  }
}

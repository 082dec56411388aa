/** Archive recovery: list loads and status refreshes that run side by side with host switches, unmounts
    and remounts. Each await is one suspension; an event resumes one of them or changes the view. */
module ArchiveRecovery {
  import opened Text

  type HostId = string

  datatype Ref = Ref(review: string, agent: string)

  /** The text an item and its notes are found by. */
  function Key(ref: Ref): string { ref.review + ":" + ref.agent }

  /** Review ids without a colon keep references apart. */
  lemma {:induction false} KeyUnique(a: Ref, b: Ref)
    requires ':' !in a.review && ':' !in b.review
    ensures Key(a) == Key(b) <==> a == b
  {
    FirstColon(a);
    FirstColon(b);
    assert Key(a)[..|a.review|] == a.review && Key(a)[|a.review| + 1..] == a.agent;
    assert Key(b)[..|b.review|] == b.review && Key(b)[|b.review| + 1..] == b.agent;
  }

  lemma {:induction false} FirstColon(r: Ref)
    requires ':' !in r.review
    ensures Key(r)[|r.review|] == ':' && forall i :: 0 <= i < |r.review| ==> Key(r)[i] != ':'
  {}

  datatype RecoveryState = Unknown | Unconfirmed | Unavailable

  /** An owner row: its title, the state it shows, and whether its archive is still unresolved. */
  datatype Row = Row(title: string, state: RecoveryState, unresolved: bool)

  datatype Item = Item(ref: Ref, state: RecoveryState, row: Option<Row>, error: Option<string>)

  datatype Note =
    | Confirmed(title: string)
    | Noted(changed: bool, title: string, state: RecoveryState)
    | Failed(title: string, error: string)

  datatype ListReply = ListFailed(error: string) | NotReported | Listed(refs: seq<Ref>)
  datatype OwnerReply = Found(row: Row) | Missing(error: string)
  datatype ReconcileReply = Reconciled(row: Row) | ReconcileFailed(error: string)

  /** A suspended load: waiting for the list, or for the owner row of the first reference of `todo`. */
  datatype Load =
    | AwaitList(host: HostId)
    | AwaitOwner(host: HostId, todo: seq<Ref>, next: seq<Item>, partial: bool, asked: set<string>)

  /** A suspended refresh: waiting for the reconcile of the first reference of `todo`, or for its load. */
  datatype Refresh =
    | AwaitReconcile(host: HostId, todo: seq<Ref>, before: Option<Item>)
    | AwaitLoad(load: nat)

  datatype Sent = ListRead(load: nat) | OwnerRead(load: nat, review: string) | ReconcileSent(token: nat, ref: Ref)

  /** What the screen shows and reports. */
  datatype Shown = Shown(
    items: seq<Item>, error: Option<string>, refreshing: Option<Option<string>>, notes: map<string, Note>,
    listed: Option<HostId>, complete: bool, changed: seq<Row>)

  datatype View = View(
    live: bool, owner: HostId, run: nat, loads: nat, active: bool, known: seq<Item>,
    shown: Shown, loading: map<nat, Load>, refreshes: map<nat, Refresh>,
    sent: seq<Sent>, lists: map<nat, seq<Ref>>)          // lists: the references each refresh started with

  datatype Event =
    | Render(host: HostId)                                 // the hook runs for this host
    | Cleanup                                            // unmount, or the old host's effect ends
    | Setup                                              // the effect of a mount or a host switch
    | StartLoad(host: HostId)
    | ListAnswer(load: nat, list: ListReply)
    | OwnerAnswer(load: nat, owner: OwnerReply)
    | StartRefresh(host: HostId, only: Option<Ref>)
    | ReconcileAnswer(token: nat, result: ReconcileReply)
    | ResumeRefresh(token: nat)                          // the load it waited for has ended

  const NOTHING := Shown([], None, None, map[], None, false, [])

  const UNMOUNTED := View(false, "", 0, 0, false, [], NOTHING, map[], map[], [], map[])

  // ---------------------------------------------------------------- loads

  predicate Stale(v: View, load: nat, host: HostId) { !v.live || v.owner != host || load != v.loads }

  function Begin(v: View, host: HostId): View {
    var started := v.(loads := v.loads + 1);
    if Stale(started, started.loads, host) then started
    else started.(loading := started.loading[started.loads := AwaitList(host)],
      sent := started.sent + [ListRead(started.loads)])
  }

  function EndLoad(v: View, load: nat): View { v.(loading := v.loading - {load}) }

  function Commit(v: View, load: nat, host: HostId, next: seq<Item>, partial: bool): View {
    EndLoad(v, load).(known := next,
      shown := v.shown.(items := next, error := None, listed := Some(host), complete := !partial))
  }

  function Trouble(v: View, load: nat, error: string): View {
    EndLoad(v, load).(shown := v.shown.(error := Some(error), complete := false))
  }

  /** The next owner row to read; a review already asked for is not asked for again. */
  function AskOwner(v: View, load: nat, l: Load): View
    requires l.AwaitOwner? && l.todo != []
  {
    var review := l.todo[0].review;
    var asking := l.(asked := l.asked + {review});
    v.(loading := v.loading[load := asking],
       sent := if review in l.asked then v.sent else v.sent + [OwnerRead(load, review)])
  }

  function ListStep(v: View, load: nat, list: ListReply): View {
    if load !in v.loading || !v.loading[load].AwaitList? then v
    else
      var host := v.loading[load].host;
      if Stale(v, load, host) then EndLoad(v, load)
      else
        match list
        case ListFailed(error) => Trouble(v, load, error)
        case NotReported => Trouble(v, load, "The host did not report its current list.")
        case Listed(refs) =>
          if refs == [] then Commit(v, load, host, [], false)
          else AskOwner(v, load, AwaitOwner(host, refs, [], false, {}))
  }

  predicate HasKey(items: seq<Item>, i: nat, key: string) { i < |items| && Key(items[i].ref) == key }

  /** No item has the key, or the result is the first one that has it. */
  predicate FirstWith(items: seq<Item>, key: string, r: Option<Item>) {
    match r
    case None => forall i: nat :: i < |items| ==> !HasKey(items, i, key)
    case Some(item) =>
      exists i: nat :: i < |items| && HasKey(items, i, key) && items[i] == item &&
          forall j: nat :: j < i ==> !HasKey(items, j, key)
  }

  function FindItem(items: seq<Item>, key: string): Option<Item> {
    if items == [] then None
    else if Key(items[0].ref) == key then Some(items[0])
    else FindItem(items[1..], key)
  }

  lemma {:induction false} FindFirst(items: seq<Item>, key: string)
    ensures FirstWith(items, key, FindItem(items, key))
    decreases |items|
  {
    if items != [] {
      if Key(items[0].ref) == key {
        assert HasKey(items, 0, key);
      } else {
        FindFirst(items[1..], key);
        assert forall i: nat :: i < |items| - 1 ==> HasKey(items[1..], i, key) == HasKey(items, i + 1, key);
        match FindItem(items[1..], key)
        case None =>
          forall i: nat | i < |items| ensures !HasKey(items, i, key) {
            if i > 0 { assert !HasKey(items[1..], i - 1, key); }
          }
        case Some(item) =>
          var i: nat :| i < |items| - 1 && HasKey(items[1..], i, key) && items[1..][i] == item &&
                        forall j: nat :: j < i ==> !HasKey(items[1..], j, key);
          forall j: nat | j < i + 1 ensures !HasKey(items, j, key) {
            if j > 0 { assert !HasKey(items[1..], j - 1, key); }
          }
          assert HasKey(items, i + 1, key) && items[i + 1] == item;
      }
    }
  }

  /** The item of one reference: a settled one is dropped, a failed read keeps the last known row. */
  function OwnerItem(known: seq<Item>, ref: Ref, reply: OwnerReply): Option<Item> {
    match reply
    case Found(row) => if row.unresolved then Some(Item(ref, row.state, Some(row), None)) else None
    case Missing(error) =>
      var prior := FindItem(known, Key(ref));
      Some(Item(ref, if prior.Some? then prior.value.state else Unavailable,
                if prior.Some? then prior.value.row else None, Some(error)))
  }

  /** A load after one more owner row: what is left to read and the items so far. */
  function OwnerNext(v: View, l: Load, reply: OwnerReply): Load
    requires l.AwaitOwner? && l.todo != []
  {
    var item := OwnerItem(v.known, l.todo[0], reply);
    l.(todo := l.todo[1..], next := if item.Some? then l.next + [item.value] else l.next,
       partial := l.partial || (item.Some? && item.value.error.Some? && item.value.error.value != ""))
  }

  function OwnerStep(v: View, load: nat, reply: OwnerReply): View {
    if load !in v.loading || !v.loading[load].AwaitOwner? || v.loading[load].todo == [] then v
    else
      var l := OwnerNext(v, v.loading[load], reply);
      if Stale(v, load, l.host) then EndLoad(v, load)
      else if l.todo == [] then Commit(v, load, l.host, l.next, l.partial)
      else AskOwner(v, load, l)
  }

  // ---------------------------------------------------------------- refreshes

  function RefsOf(items: seq<Item>): seq<Ref> {
    if items == [] then [] else [items[0].ref] + RefsOf(items[1..])
  }

  /** The top of the refresh loop with `todo` left, for a refresh that is still current. */
  function Proceed(v: View, token: nat, host: HostId, todo: seq<Ref>): View {
    if todo == [] then
      var loaded := Begin(v, host);
      loaded.(refreshes := loaded.refreshes[token := AwaitLoad(loaded.loads)])
    else
      v.(refreshes := v.refreshes[token := AwaitReconcile(host, todo, FindItem(v.known, Key(todo[0])))],
         sent := v.sent + [ReconcileSent(token, todo[0])])
  }

  function RefsFor(v: View, only: Option<Ref>): seq<Ref> { if only.Some? then [only.value] else RefsOf(v.known) }

  /** The view once a refresh of one reference, or of all, has been pressed. */
  function Pressed(v: View, only: Option<Ref>): View {
    v.(active := true, run := v.run + 1, lists := v.lists[v.run + 1 := RefsFor(v, only)],
       shown := v.shown.(refreshing := Some(if only.Some? then Some(Key(only.value)) else None)))
  }

  function BeginRefresh(v: View, host: HostId, only: Option<Ref>): View {
    if v.active || !v.live then v else Proceed(Pressed(v, only), v.run + 1, host, RefsFor(v, only))
  }

  function EndRefresh(v: View, token: nat): View { v.(refreshes := v.refreshes - {token}) }

  function TitleOf(before: Option<Item>): string {
    if before.Some? && before.value.row.Some? then before.value.row.value.title else "An archived session"
  }

  function NoteOf(before: Option<Item>, row: Row): Note {
    if !row.unresolved then Confirmed(row.title)
    else Noted(before.Some? && row.state != before.value.state, row.title, row.state)
  }

  /** What one answered reconcile reports: a changed row and a note, or a failed one. */
  function Report(v: View, ref: Ref, before: Option<Item>, result: ReconcileReply): View {
    match result
    case Reconciled(row) =>
      v.(shown := v.shown.(changed := v.shown.changed + [row], notes := v.shown.notes[Key(ref) := NoteOf(before, row)]))
    case ReconcileFailed(error) =>
      v.(shown := v.shown.(notes := v.shown.notes[Key(ref) := Failed(TitleOf(before), error)]))
  }

  function ReconcileStep(v: View, token: nat, result: ReconcileReply): View {
    if token !in v.refreshes || !v.refreshes[token].AwaitReconcile? || v.refreshes[token].todo == [] then v
    else if v.run != token then EndRefresh(v, token)
    else
      var r := v.refreshes[token];
      Proceed(Report(v, r.todo[0], r.before, result), token, r.host, r.todo[1..])
  }

  function ResumeStep(v: View, token: nat): View {
    if token !in v.refreshes || !v.refreshes[token].AwaitLoad? || v.refreshes[token].load in v.loading then v
    else if v.run != token then EndRefresh(v, token)
    else EndRefresh(v, token).(active := false, shown := v.shown.(refreshing := None))
  }

  // ---------------------------------------------------------------- events

  function Step(v: View, e: Event): View {
    match e
    case Render(host) => v.(owner := host)
    case Cleanup => v.(live := false, run := v.run + 1, loads := v.loads + 1)
    case Setup => v.(live := true, run := v.run + 1, active := false, known := [],
      shown := NOTHING.(changed := v.shown.changed))
    case StartLoad(host) => Begin(v, host)
    case ListAnswer(load, list) => ListStep(v, load, list)
    case OwnerAnswer(load, owner) => OwnerStep(v, load, owner)
    case StartRefresh(host, only) => BeginRefresh(v, host, only)
    case ReconcileAnswer(token, result) => ReconcileStep(v, token, result)
    case ResumeRefresh(token) => ResumeStep(v, token)
  }

  function Run(v: View, events: seq<Event>): View
    decreases |events|
  {
    if events == [] then v else Run(Step(v, events[0]), events[1..])
  }

  lemma {:induction false} RunConcat(v: View, a: seq<Event>, b: seq<Event>)
    ensures Run(v, a + b) == Run(Run(v, a), b)
    decreases |a|
  {
    hide Step;
    if a == [] {
      assert a + b == b;
    } else {
      assert (a + b)[0] == a[0] && (a + b)[1..] == a[1..] + b;
      RunConcat(Step(v, a[0]), a[1..], b);
    }
  }

  // ---------------------------------------------------------------- invariants of every run

  /** The references a refresh has sent a reconcile for, in order. */
  function Reconciles(sent: seq<Sent>, token: nat): seq<Ref> {
    if sent == [] then []
    else
      var rest := Reconciles(sent[..|sent| - 1], token);
      var last := sent[|sent| - 1];
      if last.ReconcileSent? && last.token == token then rest + [last.ref] else rest
  }

  lemma {:induction false} ReconcilesSnoc(sent: seq<Sent>, s: Sent, token: nat)
    ensures Reconciles(sent + [s], token) ==
            if s.ReconcileSent? && s.token == token then Reconciles(sent, token) + [s.ref] else Reconciles(sent, token)
  {
    assert (sent + [s])[..|sent|] == sent;
  }

  /** Progress of one refresh: while it waits for a reconcile, exactly the references up to that one have
      been sent; once it waits for its load, all of them. */
  ghost predicate Progress(v: View, token: nat) {
    var sent := Reconciles(v.sent, token);
    if token !in v.lists then sent == [] && token !in v.refreshes
    else
      var refs := v.lists[token];
      && sent <= refs
      && (token in v.refreshes && v.refreshes[token].AwaitReconcile? ==>
            var todo := v.refreshes[token].todo;
            todo != [] && |todo| <= |refs| && todo == refs[|refs| - |todo|..] && sent == refs[..|refs| - |todo| + 1])
      && (token in v.refreshes && v.refreshes[token].AwaitLoad? ==> sent == refs)
  }

  ghost predicate Inv(v: View) {
    && (forall n :: n in v.loading ==> n <= v.loads)
    && (forall t :: t in v.lists ==> t <= v.run)
    && (forall t :: Progress(v, t))
    && (v.run in v.refreshes ==> v.active)
    && (v.live && v.active ==> v.run in v.refreshes)
    && (v.active <==> v.shown.refreshing.Some?)
    && v.known == v.shown.items
  }

  lemma {:induction false} ProgressSame(v: View, w: View, token: nat)
    requires Progress(v, token)
    requires (token in v.lists <==> token in w.lists) && (token in v.lists ==> v.lists[token] == w.lists[token])
    requires token in w.refreshes ==> token in v.refreshes && w.refreshes[token] == v.refreshes[token]
    requires Reconciles(w.sent, token) == Reconciles(v.sent, token)
    ensures Progress(w, token)
  {}

  /** Steps that start no refresh and send no reconcile keep the progress of every refresh. */
  lemma {:induction false} QuietInv(v: View, w: View)
    requires Inv(v) && w.lists == v.lists && w.run >= v.run
    requires forall t :: t in w.refreshes ==> t in v.refreshes && w.refreshes[t] == v.refreshes[t]
    requires w.sent == v.sent || (exists s: Sent :: !s.ReconcileSent? && w.sent == v.sent + [s])
    requires forall n :: n in w.loading ==> n <= w.loads
    requires w.run in w.refreshes ==> w.active
    requires w.live && w.active ==> w.run in w.refreshes
    requires (w.active <==> w.shown.refreshing.Some?) && w.known == w.shown.items
    ensures Inv(w)
  {
    forall t ensures Progress(w, t) {
      if w.sent != v.sent {
        var s: Sent :| !s.ReconcileSent? && w.sent == v.sent + [s];
        ReconcilesSnoc(v.sent, s, t);
      }
      ProgressSame(v, w, t);
    }
  }

  /** Steps of the loads: they leave the refreshes alone and send no reconcile. */
  ghost predicate LoadFrame(v: View, w: View) {
    && w.lists == v.lists && w.run == v.run && w.refreshes == v.refreshes && w.active == v.active && w.live == v.live
    && w.shown.refreshing == v.shown.refreshing && w.shown.notes == v.shown.notes && w.shown.changed == v.shown.changed
    && (w.sent == v.sent || (exists s: Sent :: !s.ReconcileSent? && w.sent == v.sent + [s]))
    && w.loads >= v.loads && (forall n :: n in w.loading ==> n in v.loading || v.loads < n <= w.loads)
    && (forall n :: n in w.loading && n in v.loading && n <= v.loads ==> w.loading[n].host == v.loading[n].host)
    && (v.known == v.shown.items ==> w.known == w.shown.items)
  }

  lemma {:induction false} ListFrame(v: View, load: nat, list: ListReply)
    ensures LoadFrame(v, ListStep(v, load, list))
  {
    if load in v.loading && list.Listed? && list.refs != [] {
      hide AskOwner, LoadFrame;
      QuietFrames(v, load, v.loading[load].host, [], false, "");
    } else if load in v.loading {
      hide AskOwner, LoadFrame;
      QuietFrames(v, load, v.loading[load].host, [], false, if list.ListFailed? then list.error
        else "The host did not report its current list.");
    }
    assert LoadFrame(v, v);
  }

  lemma {:induction false} QuietFrames(v: View, load: nat, host: HostId, next: seq<Item>, partial: bool, error: string)
    ensures LoadFrame(v, EndLoad(v, load)) && LoadFrame(v, Commit(v, load, host, next, partial))
    ensures LoadFrame(v, Trouble(v, load, error))
  {}

  lemma {:induction false} OwnerFrame(v: View, load: nat, reply: OwnerReply)
    ensures LoadFrame(v, OwnerStep(v, load, reply))
  {
    if load in v.loading && v.loading[load].AwaitOwner? && v.loading[load].todo != [] {
      hide AskOwner, OwnerItem, LoadFrame;
      var l := OwnerNext(v, v.loading[load], reply);
      QuietFrames(v, load, l.host, l.next, l.partial, "");
    }
    assert LoadFrame(v, v);
  }

  lemma {:induction false} LoadStepFrame(v: View, e: Event)
    requires e.StartLoad? || e.ListAnswer? || e.OwnerAnswer?
    ensures LoadFrame(v, Step(v, e))
  {
    match e
    case StartLoad(host) =>
    case ListAnswer(load, list) => ListFrame(v, load, list);
    case OwnerAnswer(load, reply) => OwnerFrame(v, load, reply);
  }

  lemma {:induction false} LoadStepInv(v: View, e: Event)
    requires Inv(v) && (e.StartLoad? || e.ListAnswer? || e.OwnerAnswer?)
    ensures Inv(Step(v, e))
  {
    hide Progress, Step;
    LoadStepFrame(v, e);
    QuietInv(v, Step(v, e));
  }

  lemma {:induction false} ViewStepInv(v: View, e: Event)
    requires Inv(v) && (e.Render? || e.Cleanup? || e.Setup? || e.ResumeRefresh?)
    ensures Inv(Step(v, e))
  {
    assert forall t :: Progress(v, t) && t in v.refreshes ==> t in v.lists;
    hide Progress;
    QuietInv(v, Step(v, e));
  }

  /** The top of the refresh loop, for the current refresh with `todo` left of its list. */
  lemma {:induction false} ProceedInv(v: View, token: nat, host: HostId, todo: seq<Ref>)
    requires (forall n :: n in v.loading ==> n <= v.loads) && (forall t :: t in v.lists ==> t <= v.run)
    requires forall t :: t != token ==> Progress(v, t)
    requires token == v.run && v.active && v.shown.refreshing.Some? && v.known == v.shown.items && token in v.lists
    requires |todo| <= |v.lists[token]| && todo == v.lists[token][|v.lists[token]| - |todo|..]
    requires Reconciles(v.sent, token) == v.lists[token][..|v.lists[token]| - |todo|]
    ensures Inv(Proceed(v, token, host, todo))
  {
    assert v.lists[token][..|v.lists[token]|] == v.lists[token];
    if todo == [] { LoadsNext(v, token, host); } else { AsksNext(v, token, host, todo); }
  }

  lemma {:induction false} LoadsNext(v: View, token: nat, host: HostId)
    requires (forall n :: n in v.loading ==> n <= v.loads) && (forall t :: t in v.lists ==> t <= v.run)
    requires forall t :: t != token ==> Progress(v, t)
    requires token == v.run && v.active && v.shown.refreshing.Some? && v.known == v.shown.items && token in v.lists
    requires Reconciles(v.sent, token) == v.lists[token]
    ensures Inv(Proceed(v, token, host, []))
  {
    hide Reconciles;
    var w := Proceed(v, token, host, []);
    forall t ensures Progress(w, t) {
      ReconcilesSnoc(v.sent, ListRead(v.loads + 1), t);
      if t != token { ProgressSame(v, w, t); }
    }
  }

  lemma {:induction false} AsksNext(v: View, token: nat, host: HostId, todo: seq<Ref>)
    requires (forall n :: n in v.loading ==> n <= v.loads) && (forall t :: t in v.lists ==> t <= v.run)
    requires forall t :: t != token ==> Progress(v, t)
    requires token == v.run && v.active && v.shown.refreshing.Some? && v.known == v.shown.items && token in v.lists
    requires 0 < |todo| <= |v.lists[token]| && todo == v.lists[token][|v.lists[token]| - |todo|..]
    requires Reconciles(v.sent, token) == v.lists[token][..|v.lists[token]| - |todo|]
    ensures Inv(Proceed(v, token, host, todo))
  {
    hide Reconciles, FindItem;
    var w := Proceed(v, token, host, todo);
    var refs := v.lists[token];
    assert refs[..|refs| - |todo|] + [todo[0]] == refs[..|refs| - |todo| + 1];
    forall t ensures Progress(w, t) {
      ReconcilesSnoc(v.sent, ReconcileSent(token, todo[0]), t);
      if t != token { ProgressSame(v, w, t); }
    }
  }

  lemma {:induction false} StartRefreshInv(v: View, host: HostId, only: Option<Ref>)
    requires Inv(v)
    ensures Inv(BeginRefresh(v, host, only))
  {
    if !v.active && v.live {
      hide Proceed;
      var token := v.run + 1;
      var refs, u := RefsFor(v, only), Pressed(v, only);
      assert token !in v.lists;
      assert Progress(v, token);
      forall t | t != token ensures Progress(u, t) { assert Progress(v, t); ProgressSame(v, u, t); }
      assert refs[..0] == [] && refs[0..] == refs;
      ProceedInv(u, token, host, refs);
    }
  }

  lemma {:induction false} ReconcileInv(v: View, token: nat, result: ReconcileReply)
    requires Inv(v)
    ensures Inv(ReconcileStep(v, token, result))
  {
    if token in v.refreshes && v.refreshes[token].AwaitReconcile? && v.refreshes[token].todo != [] {
      if v.run != token {
        assert Inv(EndRefresh(v, token)) by {
          hide Progress;
          QuietInv(v, EndRefresh(v, token));
        }
      } else {
        hide Proceed;
        var r := v.refreshes[token];
        assert Progress(v, token);
        var u := Report(v, r.todo[0], r.before, result);
        var refs := v.lists[token];
        forall t | t != token ensures Progress(u, t) { assert Progress(v, t); ProgressSame(v, u, t); }
        assert r.todo[1..] == refs[|refs| - |r.todo[1..]|..];
        ProceedInv(u, token, r.host, r.todo[1..]);
      }
    }
  }

  lemma {:induction false} StepInv(v: View, e: Event)
    requires Inv(v)
    ensures Inv(Step(v, e))
  {
    hide Inv, BeginRefresh, ReconcileStep;
    match e
    case StartRefresh(host, only) => StartRefreshInv(v, host, only);
    case ReconcileAnswer(token, result) => ReconcileInv(v, token, result);
    case StartLoad(_) => LoadStepInv(v, e);
    case ListAnswer(_, _) => LoadStepInv(v, e);
    case OwnerAnswer(_, _) => LoadStepInv(v, e);
    case _ => ViewStepInv(v, e);
  }

  /** The invariants hold after every run from the unmounted view. */
  lemma {:induction false} RunInv(v: View, events: seq<Event>)
    requires Inv(v)
    ensures Inv(Run(v, events))
    decreases |events|
  {
    hide Inv, Step;
    if events != [] {
      StepInv(v, events[0]);
      RunInv(Step(v, events[0]), events[1..]);
    }
  }

  // ---------------------------------------------------------------- the latest load wins

  /** What an event of a load may write. */
  predicate SameScreen(v: View, w: View) { w.shown == v.shown && w.known == v.known && w.sent == v.sent }

  predicate Answers(e: Event, load: nat) {
    (e.ListAnswer? && e.load == load) || (e.OwnerAnswer? && e.load == load)
  }

  /** The list on screen, with what is said of it. */
  predicate SameList(v: View, w: View) {
    w.shown.items == v.shown.items && w.shown.listed == v.shown.listed && w.shown.complete == v.shown.complete &&
    w.shown.error == v.shown.error
  }

  /** The list on screen changes only with a mount or host switch, which empties it, or with an answer to
      the most recently started load, for the current host, in a live view. */
  lemma {:induction false} OnlyTheLatestLoadCommits(v: View, e: Event)
    requires !SameList(v, Step(v, e))
    ensures e.Setup? || (Answers(e, v.loads) && v.loads in v.loading && v.live && v.loading[v.loads].host == v.owner)
  {
    match e
    case StartLoad(host) =>
    case ListAnswer(load, list) =>
    case OwnerAnswer(load, reply) =>
    case StartRefresh(_, _) => RefreshKeeps(v, e);
    case ReconcileAnswer(_, _) => RefreshKeeps(v, e);
    case _ =>
  }

  /** What the steps of a refresh keep: the list, the loads under way, and the older refreshes. */
  ghost predicate RefreshFrame(v: View, w: View) {
    && SameList(v, w) && w.loads >= v.loads && w.run >= v.run
    && (forall n :: n in w.loading && n <= v.loads ==> n in v.loading && w.loading[n].host == v.loading[n].host)
    && (forall t :: t in w.refreshes && t <= v.run ==> t in v.refreshes)
  }

  lemma {:induction false} ProceedKeeps(v: View, u: View, token: nat, host: HostId, todo: seq<Ref>)
    requires SameList(v, u) && u.loads == v.loads && u.loading == v.loading && u.run >= v.run
    requires u.refreshes == v.refreshes && (token in v.refreshes || token > v.run)
    ensures RefreshFrame(v, Proceed(u, token, host, todo))
  {
    hide FindItem;
  }

  lemma {:induction false} RefreshKeeps(v: View, e: Event)
    requires e.StartRefresh? || e.ReconcileAnswer?
    ensures RefreshFrame(v, Step(v, e))
  {
    hide Proceed, RefsFor, Report;
    if e.StartRefresh? && !v.active && v.live {
      var token := v.run + 1;
      ProceedKeeps(v, Pressed(v, e.only), token, e.host, RefsFor(v, e.only));
    } else if e.ReconcileAnswer? && e.token in v.refreshes && v.refreshes[e.token].AwaitReconcile? &&
      v.refreshes[e.token].todo != [] {
      var r := v.refreshes[e.token];
      ReportKeeps(v, r.todo[0], r.before, e.result);
      ProceedKeeps(v, Report(v, r.todo[0], r.before, e.result), e.token, r.host, r.todo[1..]);
    }
  }

  lemma {:induction false} ReportKeeps(v: View, ref: Ref, before: Option<Item>, result: ReconcileReply)
    ensures var u := Report(v, ref, before, result);
      SameList(v, u) && u.loads == v.loads && u.loading == v.loading && u.run == v.run && u.refreshes == v.refreshes
  {}

  /** A load of another host, of an unmounted view, or overtaken by a later load or cleanup: its answers
      write nothing and send nothing. */
  lemma {:induction false} StaleAnswerWritesNothing(v: View, e: Event, load: nat)
    requires Answers(e, load)
    requires load in v.loading && Stale(v, load, v.loading[load].host)
    ensures SameScreen(v, Step(v, e))
  {
    hide OwnerItem, FindItem;
  }

  /** The two counters never go back, and a cleanup or a newly started load moves the load counter. */
  lemma {:induction false} CountersGrow(v: View, e: Event)
    ensures Step(v, e).loads >= v.loads && Step(v, e).run >= v.run
    ensures e.Cleanup? || e.StartLoad? ==> Step(v, e).loads > v.loads
    ensures e.Cleanup? || e.Setup? ==> Step(v, e).run > v.run
    ensures forall n :: n in Step(v, e).loading && n <= v.loads ==>
              n in v.loading && Step(v, e).loading[n].host == v.loading[n].host
    ensures forall t :: t in Step(v, e).refreshes && t <= v.run ==> t in v.refreshes
  {
    if e.StartLoad? || e.ListAnswer? || e.OwnerAnswer? {
      LoadStepFrame(v, e);
      if e.StartLoad? { hide LoadFrame; assert Step(v, e).loads > v.loads; }
    } else if e.StartRefresh? || e.ReconcileAnswer? {
      hide Step;
      RefreshKeeps(v, e);
    }
  }

  predicate Supersedes(e: Event) { e.Cleanup? || e.StartLoad? }

  lemma {:induction false} RunCounters(v: View, events: seq<Event>)
    ensures Run(v, events).loads >= v.loads && Run(v, events).run >= v.run
    ensures (exists i :: 0 <= i < |events| && Supersedes(events[i])) ==> Run(v, events).loads > v.loads
    ensures (exists i :: 0 <= i < |events| && (events[i].Cleanup? || events[i].Setup?)) ==> Run(v, events).run > v.run
    ensures forall n :: n in Run(v, events).loading && n <= v.loads ==>
              n in v.loading && Run(v, events).loading[n].host == v.loading[n].host
    ensures forall t :: t in Run(v, events).refreshes && t <= v.run ==> t in v.refreshes
    decreases |events|
  {
    if events != [] {
      hide Step;
      CountersGrow(v, events[0]);
      RunCounters(Step(v, events[0]), events[1..]);
      assert forall i :: 0 < i < |events| ==> events[i] == events[1..][i - 1];
    }
  }

  /** Over whole runs: once a cleanup or a later load has happened, whatever else happened, an answer to
      an earlier load writes nothing and sends nothing, even after a remount for the same host. */
  lemma {:induction false} SupersededForever(v: View, events: seq<Event>, e: Event, load: nat)
    requires Inv(v) && load in v.loading
    requires exists i :: 0 <= i < |events| && Supersedes(events[i])
    requires Answers(e, load)
    ensures SameScreen(Run(v, events), Step(Run(v, events), e))
  {
    hide Run;
    RunCounters(v, events);
    var w := Run(v, events);
    if load in w.loading { StaleAnswerWritesNothing(w, e, load); }
  }

  // ---------------------------------------------------------------- refresh epochs

  /** A current refresh is never retired by another one: while it lasts, pressing refresh does nothing. */
  lemma {:induction false} OneRefreshAtATime(events: seq<Event>, host: HostId, only: Option<Ref>)
    requires Run(UNMOUNTED, events).run in Run(UNMOUNTED, events).refreshes
    ensures Step(Run(UNMOUNTED, events), StartRefresh(host, only)) == Run(UNMOUNTED, events)
  {
    RunInv(UNMOUNTED, events);
  }

  /** Every refresh reconciles its references at most once each and in order: what it sent is a prefix of
      the list it started with, and the whole list once it waits for its load. A live view that says it
      is refreshing has a refresh that is still current. */
  lemma {:induction false} RefreshProgress(events: seq<Event>, token: nat)
    ensures var v := Run(UNMOUNTED, events);
      && (token in v.lists ==> Reconciles(v.sent, token) <= v.lists[token])
      && (token !in v.lists ==> Reconciles(v.sent, token) == [])
      && (token in v.refreshes && v.refreshes[token].AwaitLoad? ==>
            token in v.lists && Reconciles(v.sent, token) == v.lists[token])
      && (v.live && v.shown.refreshing.Some? ==> v.run in v.refreshes)
  {
    RunInv(UNMOUNTED, events);
    assert Progress(Run(UNMOUNTED, events), token);
  }

  /** A retired refresh writes no note, reports no row, sends nothing and leaves `active` alone. */
  lemma {:induction false} RetiredWritesNothing(v: View, e: Event, token: nat)
    requires (e.ReconcileAnswer? && e.token == token) || (e.ResumeRefresh? && e.token == token)
    requires v.run != token
    ensures SameScreen(v, Step(v, e)) && Step(v, e).active == v.active && Step(v, e).run == v.run
  {}

  /** Over whole runs: after a host switch or an unmount a refresh stays retired. */
  lemma {:induction false} RetiredForever(v: View, events: seq<Event>, e: Event, token: nat)
    requires Inv(v) && token in v.refreshes
    requires exists i :: 0 <= i < |events| && (events[i].Cleanup? || events[i].Setup?)
    requires (e.ReconcileAnswer? && e.token == token) || (e.ResumeRefresh? && e.token == token)
    ensures var w := Run(v, events);
      SameScreen(w, Step(w, e)) && Step(w, e).active == w.active
  {
    hide Run, Step;
    RunCounters(v, events);
    assert Progress(v, token);
    RetiredWritesNothing(Run(v, events), e, token);
  }

  // ---------------------------------------------------------------- a complete list was read in full

  /** Every item carries the row its own owner review returned, unless its read failed without a text. */
  predicate AllRead(items: seq<Item>) {
    forall i :: 0 <= i < |items| ==>
      items[i].error == Some("") || (items[i].error.None? && items[i].row.Some? && items[i].row.value.unresolved)
  }

  ghost predicate Faithful(v: View) {
    (v.shown.complete ==> AllRead(v.shown.items)) &&
    forall n :: n in v.loading && v.loading[n].AwaitOwner? && !v.loading[n].partial ==> AllRead(v.loading[n].next)
  }

  lemma {:induction false} ListFaithful(v: View, load: nat, list: ListReply)
    requires Faithful(v)
    ensures Faithful(ListStep(v, load, list))
  {
    assert AllRead([]);
    hide AllRead;
  }

  lemma {:induction false} OwnerFaithful(v: View, load: nat, reply: OwnerReply)
    requires Faithful(v)
    ensures Faithful(OwnerStep(v, load, reply))
  {
    if load in v.loading && v.loading[load].AwaitOwner? && v.loading[load].todo != [] {
      var l := OwnerNext(v, v.loading[load], reply);
      assert !l.partial ==> AllRead(l.next);
      hide AllRead, OwnerNext;
    }
  }

  lemma {:induction false} ProceedFaithful(v: View, token: nat, host: HostId, todo: seq<Ref>)
    requires Faithful(v)
    ensures Faithful(Proceed(v, token, host, todo))
  {
    RefreshesApart(v, Proceed(v, token, host, todo));
    RefreshesApart(Begin(v, host), Proceed(v, token, host, todo));
  }

  /** Only the list, its completeness and the loads matter. */
  lemma {:induction false} RefreshesApart(v: View, w: View)
    ensures (Faithful(v) && w.loading == v.loading && w.shown.items == v.shown.items &&
             w.shown.complete == v.shown.complete) ==> Faithful(w)
  {
    hide AllRead;
  }

  lemma {:induction false} RefreshFaithful(v: View, e: Event)
    requires Faithful(v) && (e.StartRefresh? || e.ReconcileAnswer?)
    ensures Faithful(Step(v, e))
  {
    if e.StartRefresh? && !v.active && v.live {
      RefreshesApart(v, Pressed(v, e.only));
      ProceedFaithful(Pressed(v, e.only), v.run + 1, e.host, RefsFor(v, e.only));
    } else if e.ReconcileAnswer? && e.token in v.refreshes && v.refreshes[e.token].AwaitReconcile? &&
      v.refreshes[e.token].todo != [] {
      var r := v.refreshes[e.token];
      RefreshesApart(v, EndRefresh(v, e.token));
      ProceedFaithful(Report(v, r.todo[0], r.before, e.result), e.token, r.host, r.todo[1..]);
    }
  }

  lemma {:induction false} FaithfulStep(v: View, e: Event)
    requires Faithful(v)
    ensures Faithful(Step(v, e))
  {
    match e
    case StartLoad(host) =>
    case ListAnswer(load, list) => ListFaithful(v, load, list);
    case OwnerAnswer(load, reply) => OwnerFaithful(v, load, reply);
    case StartRefresh(_, _) => RefreshFaithful(v, e);
    case ReconcileAnswer(_, _) => RefreshFaithful(v, e);
    case _ =>
  }

  /** A list the screen calls complete holds no read that failed with a text, whatever happened before. */
  lemma {:induction false} CompleteWasRead(v: View, events: seq<Event>)
    requires Faithful(v)
    ensures Faithful(Run(v, events))
    decreases |events|
  {
    hide Faithful, Step;
    if events != [] {
      FaithfulStep(v, events[0]);
      CompleteWasRead(Step(v, events[0]), events[1..]);
    }
  }

  // ---------------------------------------------------------------- what a load puts on the list

  /** An answered read of an owner row: of which reference, the answer, and the items known at that time. */
  datatype Reading = Reading(ref: Ref, reply: OwnerReply, known: seq<Item>)

  /** What a load has been told: the list, and the owner rows it has read of it, in order. */
  datatype Trail = Trail(refs: Option<seq<Ref>>, readings: seq<Reading>)

  /** An event tells the load something if the load is waiting for it. */
  function Told(v: View, t: Trail, e: Event, load: nat): Trail {
    if load !in v.loading || !Answers(e, load) then t
    else if e.ListAnswer? && t.refs.None? && e.list.Listed? then Trail(Some(e.list.refs), [])
    else if e.OwnerAnswer? && t.refs.Some? && |t.readings| < |t.refs.value| then
      t.(readings := t.readings + [Reading(t.refs.value[|t.readings|], e.owner, v.known)])
    else t
  }

  /** What a load has been told by the events so far. */
  function TrailOf(events: seq<Event>, load: nat): Trail {
    if events == [] then Trail(None, [])
    else
      var before := events[..|events| - 1];
      Told(Run(UNMOUNTED, before), TrailOf(before, load), events[|events| - 1], load)
  }

  predicate SettledBy(r: Reading) { r.reply.Found? && !r.reply.row.unresolved }

  /** The item of a reading that is not settled: the row that was read, or the error with the last known row. */
  ghost predicate Shows(r: Reading, item: Item) {
    item.ref == r.ref &&
    match r.reply
    case Found(row) => item.state == row.state && item.row == Some(row) && item.error == None
    case Missing(error) =>
      && item.error == Some(error)
      && exists prior :: FirstWith(r.known, Key(r.ref), prior) &&
                         match prior
                         case None => item.state == Unavailable && item.row == None
                         case Some(p) => item.state == p.state && item.row == p.row
  }

  /** The list of the readings: one item for each that is not settled, in order. */
  ghost predicate Lists(readings: seq<Reading>, items: seq<Item>) {
    if readings == [] then items == []
    else
      var front, last := readings[..|readings| - 1], readings[|readings| - 1];
      if SettledBy(last) then Lists(front, items)
      else items != [] && Lists(front, items[..|items| - 1]) && Shows(last, items[|items| - 1])
  }

  /** A failed read makes the list incomplete, but only if its error has a text. */
  predicate Incomplete(readings: seq<Reading>) {
    exists i :: 0 <= i < |readings| && readings[i].reply.Missing? && readings[i].reply.error != ""
  }

  function ReviewsOf(refs: seq<Ref>): set<string> { set i | 0 <= i < |refs| :: refs[i].review }

  /** A load that waits for an owner row has read those before it, and asked for their reviews and the next one. */
  ghost predicate Follows(l: Load, t: Trail) {
    match l
    case AwaitList(_) => t.refs.None?
    case AwaitOwner(_, todo, next, partial, asked) =>
      && t.refs.Some? && |t.readings| < |t.refs.value| && todo == t.refs.value[|t.readings|..]
      && Lists(t.readings, next) && (partial <==> Incomplete(t.readings))
      && asked == ReviewsOf(t.refs.value[..|t.readings| + 1])
  }

  ghost predicate TrailInv(v: View, t: Trail, load: nat) {
    (load > v.loads ==> t == Trail(None, []) && load !in v.loading) &&
        (load in v.loading ==> Follows(v.loading[load], t))
  }

  lemma {:induction false} ListsMore(readings: seq<Reading>, items: seq<Item>, r: Reading)
    requires Lists(readings, items)
    ensures var item := OwnerItem(r.known, r.ref, r.reply);
      Lists(readings + [r], if item.Some? then items + [item.value] else items)
  {
    var all := readings + [r];
    assert all[..|all| - 1] == readings;
    FindFirst(r.known, Key(r.ref));
    var item := OwnerItem(r.known, r.ref, r.reply);
    if item.Some? {
      var more := items + [item.value];
      assert more[..|more| - 1] == items;
      assert Shows(r, item.value);
    }
  }

  lemma {:induction false} IncompleteMore(readings: seq<Reading>, r: Reading)
    ensures Incomplete(readings + [r]) <==> Incomplete(readings) || (r.reply.Missing? && r.reply.error != "")
  {
    var all := readings + [r];
    assert all[|readings|] == r && forall i :: 0 <= i < |readings| ==> all[i] == readings[i];
  }

  /** The next load state follows from what it is told. */
  lemma {:induction false} OwnerTold(v: View, t: Trail, load: nat, reply: OwnerReply)
    requires load in v.loading && v.loading[load].AwaitOwner? && Follows(v.loading[load], t)
    ensures v.loading[load].todo != []
    ensures var told, l := Told(v, t, OwnerAnswer(load, reply), load), OwnerNext(v, v.loading[load], reply);
      && told.refs == t.refs && |told.readings| == |t.readings| + 1 && l.todo == t.refs.value[|told.readings|..]
      && l.asked == v.loading[load].asked && l.host == v.loading[load].host
      && Lists(told.readings, l.next) && (l.partial <==> Incomplete(told.readings))
  {
    var r := Reading(t.refs.value[|t.readings|], reply, v.known);
    ListsMore(t.readings, v.loading[load].next, r);
    IncompleteMore(t.readings, r);
  }

  lemma {:induction false} ReviewsMore(refs: seq<Ref>, n: nat)
    requires n < |refs|
    ensures ReviewsOf(refs[..n + 1]) == ReviewsOf(refs[..n]) + {refs[n].review}
  {
    var a, b := refs[..n], refs[..n + 1];
    assert b == a + [refs[n]];
    forall x | x in ReviewsOf(b) ensures x in ReviewsOf(a) + {refs[n].review} {
      var i :| 0 <= i < |b| && b[i].review == x;
      assert i < n ==> a[i] == b[i];
    }
    forall x | x in ReviewsOf(a) + {refs[n].review} ensures x in ReviewsOf(b) {
      if x != refs[n].review {
        var i :| 0 <= i < |a| && a[i].review == x;
        assert b[i] == a[i];
      } else {
        assert b[n] == refs[n];
      }
    }
  }

  /** A step that leaves a load alone, or starts it. */
  predicate LoadApart(v: View, w: View, load: nat) {
    && w.loads >= v.loads && (load in w.loading && load in v.loading ==> w.loading[load] == v.loading[load])
    && (load in w.loading && load !in v.loading ==> v.loads < load <= w.loads && w.loading[load].AwaitList?)
  }

  lemma {:induction false} TrailApart(v: View, w: View, t: Trail, load: nat)
    requires TrailInv(v, t, load) && LoadApart(v, w, load)
    ensures TrailInv(w, t, load)
  {}

  lemma {:induction false} BeginApart(v: View, u: View, host: HostId, load: nat)
    requires u.loading == v.loading && u.loads == v.loads && (load in v.loading ==> load <= v.loads)
    ensures LoadApart(v, u, load) && LoadApart(v, Begin(u, host), load)
  {}

  lemma {:induction false} ProceedApart(v: View, u: View, token: nat, host: HostId, todo: seq<Ref>, load: nat)
    requires u.loading == v.loading && u.loads == v.loads && (load in v.loading ==> load <= v.loads)
    ensures LoadApart(v, Proceed(u, token, host, todo), load)
  {
    hide Begin;
    BeginApart(v, u, host, load);
  }

  lemma {:induction false} OthersApart(v: View, e: Event, load: nat)
    requires !Answers(e, load) && (load in v.loading ==> load <= v.loads)
    ensures LoadApart(v, Step(v, e), load)
  {
    hide Begin, Proceed, OwnerNext, Report, LoadApart, Pressed, RefsFor;
    BeginApart(v, v, "", load);
    match e
    case StartLoad(host) => BeginApart(v, v, host, load);
    case StartRefresh(host, only) =>
      if !v.active && v.live {
        PressedKeeps(v, only);
        ProceedApart(v, Pressed(v, only), v.run + 1, host, RefsFor(v, only), load);
      }
    case ReconcileAnswer(token, result) =>
      if token in v.refreshes && v.refreshes[token].AwaitReconcile? && v.refreshes[token].todo != [] && v.run == token {
        var r := v.refreshes[token];
        ReportKeeps(v, r.todo[0], r.before, result);
        ProceedApart(v, Report(v, r.todo[0], r.before, result), token, r.host, r.todo[1..], load);
      } else { SameApart(v, Step(v, e), load); }
    case ListAnswer(other, list) => AnswerApart(v, e, other, load);
    case OwnerAnswer(other, reply) => AnswerApart(v, e, other, load);
    case _ => SameApart(v, Step(v, e), load);
  }

  lemma {:induction false} PressedKeeps(v: View, only: Option<Ref>)
    ensures Pressed(v, only).loading == v.loading && Pressed(v, only).loads == v.loads
  {}

  lemma {:induction false} SameApart(v: View, w: View, load: nat)
    requires w.loading == v.loading && w.loads >= v.loads
    ensures LoadApart(v, w, load)
  {}

  lemma {:induction false} AnswerApart(v: View, e: Event, other: nat, load: nat)
    requires other != load && Answers(e, other)
    ensures LoadApart(v, Step(v, e), load)
  {
    hide LoadApart, EndLoad, Commit, Trouble, AskOwner, OwnerItem;
    EndsApart(v, other, load);
    if e.OwnerAnswer? {
      if other in v.loading && v.loading[other].AwaitOwner? && v.loading[other].todo != [] {
        AsksApart(v, other, OwnerNext(v, v.loading[other], e.owner), load);
      }
    } else if other in v.loading && v.loading[other].AwaitList? {
      var host := v.loading[other].host;
      match e.list
      case Listed(refs) => AsksApart(v, other, AwaitOwner(host, refs, [], false, {}), load);
      case ListFailed(error) => assert LoadApart(v, Trouble(v, other, error), load);
      case NotReported => assert LoadApart(v, Trouble(v, other, "The host did not report its current list."), load);
    }
  }

  lemma {:induction false} EndsApart(v: View, other: nat, load: nat)
    requires other != load
    ensures LoadApart(v, v, load) && LoadApart(v, EndLoad(v, other), load)
    ensures forall host, next, partial :: LoadApart(v, Commit(v, other, host, next, partial), load)
    ensures forall error :: LoadApart(v, Trouble(v, other, error), load)
  {}

  lemma {:induction false} AsksApart(v: View, other: nat, l: Load, load: nat)
    requires other != load
    ensures l.AwaitOwner? && l.todo != [] ==> LoadApart(v, AskOwner(v, other, l), load)
  {}

  lemma {:induction false} ListTold(v: View, t: Trail, load: nat, list: ListReply)
    requires TrailInv(v, t, load)
    ensures TrailInv(ListStep(v, load, list), Told(v, t, ListAnswer(load, list), load), load)
  {
    if load in v.loading && v.loading[load].AwaitList? && list.Listed? && list.refs != [] {
      var refs := list.refs;
      assert refs[0..] == refs && refs[..0] == [];
      ReviewsMore(refs, 0);
      assert !Incomplete([]) && ReviewsOf([]) == {};
    }
  }

  lemma {:induction false} OwnerAnswerTold(v: View, t: Trail, load: nat, reply: OwnerReply)
    requires TrailInv(v, t, load)
    ensures TrailInv(OwnerStep(v, load, reply), Told(v, t, OwnerAnswer(load, reply), load), load)
  {
    if load in v.loading && v.loading[load].AwaitOwner? {
      hide Lists, Incomplete, ReviewsOf, OwnerNext;
      OwnerTold(v, t, load, reply);
      var told := Told(v, t, OwnerAnswer(load, reply), load);
      var l := OwnerNext(v, v.loading[load], reply);
      if |told.readings| < |t.refs.value| { ReviewsMore(t.refs.value, |told.readings|); }
    }
  }

  lemma {:induction false} TrailStep(v: View, t: Trail, e: Event, load: nat)
    requires TrailInv(v, t, load) && (load in v.loading ==> load <= v.loads)
    ensures TrailInv(Step(v, e), Told(v, t, e, load), load)
  {
    if e.ListAnswer? && e.load == load {
      ListTold(v, t, load, e.list);
    } else if e.OwnerAnswer? && e.load == load {
      OwnerAnswerTold(v, t, load, e.owner);
    } else {
      hide TrailInv, Step, LoadApart;
      OthersApart(v, e, load);
      TrailApart(v, Step(v, e), t, load);
    }
  }

  lemma {:induction false} TrailRun(events: seq<Event>, load: nat)
    ensures TrailInv(Run(UNMOUNTED, events), TrailOf(events, load), load)
    decreases |events|
  {
    if events != [] {
      hide Step, TrailInv;
      var before, e := events[..|events| - 1], events[|events| - 1];
      TrailRun(before, load);
      RunInv(UNMOUNTED, before);
      TrailStep(Run(UNMOUNTED, before), TrailOf(before, load), e, load);
      RunConcat(UNMOUNTED, before, [e]);
      assert before + [e] == events;
      assert Run(Step(Run(UNMOUNTED, before), e), []) == Step(Run(UNMOUNTED, before), e);
    } else {
      assert Run(UNMOUNTED, events) == UNMOUNTED;
    }
  }

  /** The answer is one the load waits for, and the load is still the latest, for the host in a live view. */
  predicate Awaited(v: View, e: Event, load: nat) {
    && load in v.loading && !Stale(v, load, v.loading[load].host) && Answers(e, load)
    && (v.loading[load].AwaitList? <==> e.ListAnswer?)
  }

  predicate Fails(v: View, w: View, error: string) {
    w.shown == v.shown.(error := Some(error), complete := false) && w.known == v.known && w.sent == v.sent
  }

  ghost predicate Commits(v: View, w: View, host: HostId, readings: seq<Reading>) {
    && w.shown == v.shown.(items := w.shown.items, error := None, listed := Some(host), complete := w.shown.complete)
    && Lists(readings, w.shown.items) && w.known == w.shown.items && w.sent == v.sent
    && (w.shown.complete <==> !Incomplete(readings))
  }

  /** The screen stays as it is; the review of the next reference is asked for unless it was before. */
  predicate Waits(v: View, w: View, load: nat, refs: seq<Ref>, n: nat)
    requires n < |refs|
  {
    && w.shown == v.shown && w.known == v.known && load in w.loading
    && w.sent == v.sent + if refs[n].review in ReviewsOf(refs[..n]) then [] else [OwnerRead(load, refs[n].review)]
  }

  /** After any events, an answer to the current load. A list that could not be read leaves the items as they are.
      While a reference is left, nothing on screen changes. The last answer puts the list of all readings there. */
  lemma {:induction false} LoadWrites(events: seq<Event>, e: Event, load: nat)
    requires Awaited(Run(UNMOUNTED, events), e, load)
    ensures var v, t := Run(UNMOUNTED, events), TrailOf(events + [e], load);
      var w := Step(v, e);
      if e.ListAnswer? && e.list.ListFailed? then Fails(v, w, e.list.error)
      else if e.ListAnswer? && e.list.NotReported? then Fails(v, w, "The host did not report its current list.")
      else
        && t.refs.Some? && |t.readings| <= |t.refs.value|
        && if |t.readings| == |t.refs.value| then Commits(v, w, v.loading[load].host, t.readings)
           else Waits(v, w, load, t.refs.value, |t.readings|)
  {
    hide Run, TrailOf, TrailInv;
    var v := Run(UNMOUNTED, events);
    TrailRun(events, load);
    assert (events + [e])[..|events|] == events;
    TrailLast(events, e, load);
    if e.ListAnswer? {
      ListWrites(v, TrailOf(events, load), e, load);
    } else {
      OwnerWrites(v, TrailOf(events, load), e, load);
    }
  }

  lemma {:induction false} TrailLast(events: seq<Event>, e: Event, load: nat)
    ensures TrailOf(events + [e], load) == Told(Run(UNMOUNTED, events), TrailOf(events, load), e, load)
  {
    assert (events + [e])[..|events|] == events;
  }

  lemma {:induction false} ListWrites(v: View, t: Trail, e: Event, load: nat)
    requires Awaited(v, e, load) && e.ListAnswer? && TrailInv(v, t, load)
    ensures var w, told := Step(v, e), Told(v, t, e, load);
      match e.list
      case ListFailed(error) => Fails(v, w, error)
      case NotReported => Fails(v, w, "The host did not report its current list.")
      case Listed(refs) =>
        && told.refs == Some(refs) && told.readings == []
        && if refs == [] then Commits(v, w, v.loading[load].host, []) else Waits(v, w, load, refs, 0)
  {
    assert !Incomplete([]) && ReviewsOf([]) == {};
    if e.list.Listed? && e.list.refs != [] { assert e.list.refs[..0] == []; }
  }

  lemma {:induction false} OwnerWrites(v: View, t: Trail, e: Event, load: nat)
    requires Awaited(v, e, load) && e.OwnerAnswer? && TrailInv(v, t, load)
    ensures var w, told := Step(v, e), Told(v, t, e, load);
      && told.refs.Some? && |told.readings| <= |told.refs.value|
      && if |told.readings| == |told.refs.value| then Commits(v, w, v.loading[load].host, told.readings)
         else Waits(v, w, load, told.refs.value, |told.readings|)
  {
    hide Lists, Incomplete, ReviewsOf, OwnerNext;
    OwnerTold(v, t, load, e.owner);
  }

  /** A list with a read that failed without a text is shown as complete. */
  lemma {:induction false} SilentFailure() returns (events: seq<Event>, items: seq<Item>)
    ensures var v := Run(UNMOUNTED, events);
      v.shown.complete && v.shown.items == items && |items| == 1 && items[0].error == Some("") && items[0].row == None
  {
    var ref := Ref("r", "a");
    events := [Setup, StartLoad(""), ListAnswer(1, Listed([ref])), OwnerAnswer(1, Missing(""))];
    items := [Item(ref, Unavailable, None, Some(""))];
    var v1 := Step(UNMOUNTED, Setup);
    var v2 := Step(v1, StartLoad(""));
    var v3 := Step(v2, ListAnswer(1, Listed([ref])));
    var v4 := Step(v3, OwnerAnswer(1, Missing("")));
    assert events[1..][1..][1..][1..] == [];
    assert Run(UNMOUNTED, events) == Run(v1, events[1..]) == Run(v2, events[1..][1..]) == Run(v3, events[1..][1..][1..])
        == Run(v4, events[1..][1..][1..][1..]) == v4;
  }

  // ---------------------------------------------------------------- what a refresh starts with and reports

  lemma {:induction false} RefsShown(items: seq<Item>)
    ensures |RefsOf(items)| == |items| && forall i :: 0 <= i < |items| ==> RefsOf(items)[i] == items[i].ref
    decreases |items|
  {
    if items != [] { RefsShown(items[1..]); }
  }

  /** The refresh asks for the first reference left, with the item that is known for it now; with none left it starts
      a load. */
  predicate Goes(v: View, w: View, token: nat, host: HostId, todo: seq<Ref>) {
    if todo == [] then
      && token in w.refreshes && w.refreshes[token] == AwaitLoad(v.loads + 1) && Loads(v, w, host)
    else
      && token in w.refreshes && w.refreshes[token].AwaitReconcile? && w.refreshes[token].host == host
      && w.refreshes[token].todo == todo && FirstWith(v.known, Key(todo[0]), w.refreshes[token].before)
      && w.sent == v.sent + [ReconcileSent(token, todo[0])] && w.loading == v.loading && w.loads == v.loads
  }

  /** A new load: in a live view of that host it reads the list, otherwise it ends at once. */
  predicate Loads(v: View, w: View, host: HostId) {
    && w.loads == v.loads + 1
    && if v.live && v.owner == host
       then w.loading == v.loading[w.loads := AwaitList(host)] && w.sent == v.sent + [ListRead(w.loads)]
       else w.loading == v.loading && w.sent == v.sent
  }

  lemma {:induction false} ProceedGoes(v: View, u: View, token: nat, host: HostId, todo: seq<Ref>)
    requires u.sent == v.sent && u.loading == v.loading && u.loads == v.loads
    requires u.live == v.live && u.owner == v.owner && u.known == v.known
    ensures var w := Proceed(u, token, host, todo);
      Goes(v, w, token, host, todo) && w.shown == u.shown && w.run == u.run && w.active == u.active &&
          w.lists == u.lists
  {
    if todo != [] { FindFirst(v.known, Key(todo[0])); }
    hide FindItem, FirstWith;
  }

  /** A refresh starts unless one is active or the view is gone. It is of the reference that was pressed, or of all
      those shown, in order. */
  lemma {:induction false} RefreshStarts(events: seq<Event>, host: HostId, only: Option<Ref>)
    ensures var v := Run(UNMOUNTED, events);
      var w := Step(v, StartRefresh(host, only));
      if v.active || !v.live then w == v
      else
        && w.run == v.run + 1 && w.active && w.run in w.lists
        && w.shown == v.shown.(refreshing := Some(if only.Some? then Some(Key(only.value)) else None))
        && (only.Some? ==> w.lists[w.run] == [only.value])
        && (only.None? ==>
              && |w.lists[w.run]| == |v.shown.items|
              && forall i :: 0 <= i < |v.shown.items| ==> w.lists[w.run][i] == v.shown.items[i].ref)
        && Goes(v, w, w.run, host, w.lists[w.run])
  {
    var v := Run(UNMOUNTED, events);
    RunInv(UNMOUNTED, events);
    hide Run, Progress, Goes, Proceed;
    RefsShown(v.known);
    ProceedGoes(v, Pressed(v, only), v.run + 1, host, RefsFor(v, only));
  }

  /** What is noted of one answer: a settled archive, an unresolved one and whether its state has changed since the
      reconcile was sent, or an error. */
  predicate Notes(before: Option<Item>, result: ReconcileReply, note: Note) {
    match result
    case Reconciled(row) =>
      if row.unresolved then
        note.Noted? && note.title == row.title && note.state == row.state &&
        (note.changed <==> before.Some? && before.value.state != row.state)
      else note == Confirmed(row.title)
    case ReconcileFailed(error) =>
      note.Failed? && note.error == error &&
      (before.Some? && before.value.row.Some? ==> note.title == before.value.row.value.title) &&
      (before.None? || before.value.row.None? ==> note.title == "An archived session")
  }

  /** An answer to the current refresh is noted under its reference, a row is reported, nothing else on screen
      changes, and the refresh goes on with the rest. */
  lemma {:induction false} AnswerNoted(v: View, token: nat, result: ReconcileReply)
    requires token in v.refreshes && v.run == token
    requires v.refreshes[token].AwaitReconcile? && v.refreshes[token].todo != []
    ensures var w, r := Step(v, ReconcileAnswer(token, result)), v.refreshes[token];
      && Key(r.todo[0]) in w.shown.notes && Notes(r.before, result, w.shown.notes[Key(r.todo[0])])
      && w.shown == v.shown.(notes := v.shown.notes[Key(r.todo[0]) := w.shown.notes[Key(r.todo[0])]],
        changed := if result.Reconciled? then v.shown.changed + [result.row] else v.shown.changed)
      && Goes(v, w, token, r.host, r.todo[1..])
  {
    hide Goes, Proceed;
    var r := v.refreshes[token];
    ProceedGoes(v, Report(v, r.todo[0], r.before, result), token, r.host, r.todo[1..]);
  }

  /** A refresh waits until its load has ended. Then the current one ends, and the screen no longer says that it goes
      on; a retired one leaves without a trace. */
  lemma {:induction false} RefreshEnds(v: View, token: nat)
    ensures var w := Step(v, ResumeRefresh(token));
      if token in v.refreshes && v.refreshes[token].AwaitLoad? && v.refreshes[token].load !in v.loading then
        && w.refreshes == v.refreshes - {token} && w.sent == v.sent && w.known == v.known && w.loading == v.loading
        && (v.run == token ==> !w.active && w.shown == v.shown.(refreshing := None))
        && (v.run != token ==> w.active == v.active && w.shown == v.shown)
      else w == v
  {}
}

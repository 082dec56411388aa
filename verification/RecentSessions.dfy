/** Recent sessions: a most-recent-first list of at most 500 per host, over a device store that may fail. */
module RecentSessions {
  import opened Text

  type HostId = string

  datatype Visit = Visit(id: string, at: int)

  datatype Record = Record(clearedAt: Option<int>, visits: seq<Visit>)

  /** A stored value: an encoded record, or one this version does not accept. */
  datatype Stored = Encoded(record: Record) | Foreign(raw: string)

  datatype Persistence = OnDevice | InSession | WriteFailed | Unreadable

  datatype RecentState = RecentState(record: Record, persistence: Persistence)

  /** The module's state: the device's values, if there is a device, each host's state, and how many
      times the listeners were told. */
  datatype Store = Store(device: Option<map<HostId, Stored>>, states: map<HostId, RecentState>, notices: nat)

  const KEPT: nat := 500
  const EMPTY := Record(None, [])

  // ---------------------------------------------------------------- lists of visits

  function IdsOf(visits: seq<Visit>): set<string> { set i | 0 <= i < |visits| :: visits[i].id }

  predicate DistinctIds(visits: seq<Visit>) { forall i, j :: 0 <= i < j < |visits| ==> visits[i].id != visits[j].id }

  function Without(visits: seq<Visit>, id: string): (r: seq<Visit>)
    ensures |r| <= |visits|
  {
    if visits == [] then []
    else (if visits[0].id == id then [] else [visits[0]]) + Without(visits[1..], id)
  }

  /** One visit for each id, in the order of their first occurrences. */
  function Dedup(visits: seq<Visit>): (r: seq<Visit>)
    decreases |visits|
  {
    if visits == [] then [] else [visits[0]] + Dedup(Without(visits[1..], visits[0].id))
  }

  function Take(visits: seq<Visit>, n: nat): seq<Visit> { if |visits| <= n then visits else visits[..n] }

  /** The visit goes to the front of an unbounded list. */
  function Recall(visits: seq<Visit>, v: Visit): seq<Visit> { [v] + Without(visits, v.id) }

  lemma {:induction false} ConsFacts(v: Visit, rest: seq<Visit>)
    ensures IdsOf([v] + rest) == {v.id} + IdsOf(rest)
    ensures DistinctIds([v] + rest) <==> v.id !in IdsOf(rest) && DistinctIds(rest)
  {
    var all := [v] + rest;
    assert all[0] == v && forall i :: 0 <= i < |rest| ==> all[i + 1] == rest[i];
    forall x | x in IdsOf(rest) ensures x in IdsOf(all) {
      var i :| 0 <= i < |rest| && rest[i].id == x;
      assert all[i + 1].id == x;
    }
    assert forall i :: 0 < i < |all| ==> all[i] == rest[i - 1];
    if DistinctIds(all) {
      forall i, j | 0 <= i < j < |rest| ensures rest[i].id != rest[j].id { assert all[i + 1].id != all[j + 1].id; }
    }
  }

  lemma {:induction false} SplitFacts(visits: seq<Visit>)
    requires visits != []
    ensures IdsOf(visits) == {visits[0].id} + IdsOf(visits[1..])
    ensures DistinctIds(visits) <==> visits[0].id !in IdsOf(visits[1..]) && DistinctIds(visits[1..])
  {
    ConsFacts(visits[0], visits[1..]);
    assert [visits[0]] + visits[1..] == visits;
  }

  lemma {:induction false} WithoutIds(visits: seq<Visit>, id: string)
    ensures IdsOf(Without(visits, id)) == IdsOf(visits) - {id}
    decreases |visits|
  {
    if visits != [] {
      hide IdsOf, Without, DistinctIds;
      var head, rest := visits[0], visits[1..];
      assert [head] + rest == visits;
      WithoutIds(rest, id);
      WithoutHead(head, rest, id);
      ConsFacts(head, rest);
      ConsFacts(head, Without(rest, id));
    }
  }

  lemma {:induction false} WithoutAbsent(visits: seq<Visit>, id: string)
    requires id !in IdsOf(visits)
    ensures Without(visits, id) == visits
    decreases |visits|
  {
    if visits != [] {
      assert forall i :: 0 <= i < |visits[1..]| ==> visits[1..][i].id in IdsOf(visits);
      WithoutAbsent(visits[1..], id);
    }
  }

  lemma {:induction false} WithoutTake(visits: seq<Visit>, id: string, n: nat)
    requires DistinctIds(visits)
    ensures Take(Without(Take(visits, n + 1), id), n) == Take(Without(visits, id), n)
    decreases |visits|
  {
    if |visits| > n + 1 {
      hide DistinctIds, IdsOf, Without;
      var head, rest := visits[0], visits[1..];
      var cut := Take(rest, n);
      SplitFacts(visits);
      assert Take(visits, n + 1) == [head] + cut;
      WithoutHead(head, rest, id);
      WithoutHead(head, cut, id);
      assert [head] + rest == visits;
      if head.id == id {
        TakeIds(rest, n);
        WithoutAbsent(rest, id);
        WithoutAbsent(cut, id);
      } else if n > 0 {
        WithoutTake(rest, id, n - 1);
        TakeCons(head, Without(cut, id), n);
        TakeCons(head, Without(rest, id), n);
      } else {
        assert Take([head] + Without(rest, id), 0) == [];
      }
    }
  }

  lemma {:induction false} WithoutHead(head: Visit, rest: seq<Visit>, id: string)
    ensures Without([head] + rest, id) == if head.id == id then Without(rest, id) else [head] + Without(rest, id)
  {
    assert ([head] + rest)[1..] == rest;
    assert [] + Without(rest, id) == Without(rest, id);
  }

  lemma {:induction false} TakeCons(head: Visit, rest: seq<Visit>, n: nat)
    requires n > 0
    ensures Take([head] + rest, n) == [head] + Take(rest, n - 1)
  {}

  lemma {:induction false} TakeIds(visits: seq<Visit>, n: nat)
    ensures IdsOf(Take(visits, n)) <= IdsOf(visits)
  {}

  lemma {:induction false} WithoutTakeShort(visits: seq<Visit>, id: string, n: nat)
    requires DistinctIds(visits) && n > 0
    ensures Take(Without(Take(visits, n), id), n - 1) == Take(Without(visits, id), n - 1)
  {
    WithoutTake(visits, id, n - 1);
  }

  /** Cutting the list after every visit loses nothing that the first 500 of the whole log would show. */
  lemma {:induction false} RecallTake(visits: seq<Visit>, v: Visit, n: nat)
    requires DistinctIds(visits) && n > 0
    ensures Take(Recall(Take(visits, n), v), n) == Take(Recall(visits, v), n)
  {
    WithoutTakeShort(visits, v.id, n);
    assert Take([v] + Without(Take(visits, n), v.id), n) == [v] + Take(Without(Take(visits, n), v.id), n - 1);
    assert Take([v] + Without(visits, v.id), n) == [v] + Take(Without(visits, v.id), n - 1);
  }

  lemma {:induction false} DedupFacts(visits: seq<Visit>)
    ensures DistinctIds(Dedup(visits)) && IdsOf(Dedup(visits)) == IdsOf(visits)
    decreases |visits|
  {
    if visits != [] {
      var head, tail := visits[0], visits[1..];
      SplitFacts(visits);
      WithoutIds(tail, head.id);
      DedupFacts(Without(tail, head.id));
      ConsFacts(head, Dedup(Without(tail, head.id)));
      hide IdsOf, DistinctIds;
    }
  }

  lemma {:induction false} DedupSame(visits: seq<Visit>)
    requires DistinctIds(visits)
    ensures Dedup(visits) == visits
    decreases |visits|
  {
    if visits != [] {
      SplitFacts(visits);
      WithoutAbsent(visits[1..], visits[0].id);
      DedupSame(visits[1..]);
    }
  }

  lemma {:induction false} WithoutSwap(visits: seq<Visit>, a: string, b: string)
    ensures Without(Without(visits, a), b) == Without(Without(visits, b), a)
    decreases |visits|
  {
    if visits != [] {
      WithoutSwap(visits[1..], a, b);
      var x, ra, rb := visits[0], Without(visits[1..], a), Without(visits[1..], b);
      assert Without(visits, a) == if x.id == a then ra else [x] + ra;
      assert Without(visits, b) == if x.id == b then rb else [x] + rb;
      assert ([x] + ra)[1..] == ra && ([x] + rb)[1..] == rb;
    }
  }

  lemma {:induction false} WithoutDedup(visits: seq<Visit>, id: string)
    ensures Without(Dedup(visits), id) == Dedup(Without(visits, id))
    decreases |visits|
  {
    if visits != [] {
      var x, tail := visits[0], visits[1..];
      var rest := Without(tail, x.id);
      assert ([x] + Dedup(rest))[1..] == Dedup(rest);
      if x.id == id {
        DedupFacts(rest);
        WithoutIds(tail, id);
        WithoutAbsent(Dedup(rest), id);
        assert [] + rest == rest;
      } else {
        WithoutDedup(rest, id);
        WithoutSwap(tail, x.id, id);
        assert ([x] + Without(tail, id))[1..] == Without(tail, id);
      }
    }
  }

  /** Moving a visit to the front of the distinct list is the same as putting it before the whole raw
      history and keeping the latest visit of each id. */
  lemma {:induction false} RecallDedup(history: seq<Visit>, v: Visit)
    ensures Recall(Dedup(history), v) == Dedup([v] + history)
  {
    WithoutDedup(history, v.id);
    assert ([v] + history)[1..] == history;
  }

  // ---------------------------------------------------------------- the store

  /** A stored value as a record, with one visit for each id. */
  function Parse(s: Stored): Option<Record> {
    match s
    case Encoded(r) => Some(Record(r.clearedAt, Dedup(r.visits)))
    case Foreign(_) => None
  }

  function Keep(st: Store, host: HostId, next: RecentState): Store { st.(states := st.states[host := next]) }

  /** Writes through to the device, when there is one; a throwing write leaves its value alone. */
  function Write(st: Store, host: HostId, record: Record, fails: bool): (r: Store)
    ensures host in r.states
  {
    if st.device.None? then Keep(st, host, RecentState(record, InSession))
    else if fails then Keep(st, host, RecentState(record, WriteFailed))
    else Keep(st.(device := Some(st.device.value[host := Encoded(record)])), host, RecentState(record, OnDevice))
  }

  function Load(st: Store, host: HostId, fails: bool): Store {
    if st.device.None? then Keep(st, host, RecentState(EMPTY, InSession))
    else if fails then Keep(st, host, RecentState(EMPTY, Unreadable))
    else if host !in st.device.value then Keep(st, host, RecentState(EMPTY, OnDevice))
    else
      match Parse(st.device.value[host])
      case Some(record) => Keep(st, host, RecentState(record, OnDevice))
      case None => Keep(st, host, RecentState(EMPTY, Unreadable))
  }

  /** Which storage calls throw during one operation. */
  datatype Faults = Faults(read: bool, write: bool)

  function Save(st: Store, host: HostId, record: Record, persistence: Persistence, f: Faults): (r: Store)
    ensures host in r.states
  {
    if persistence == Unreadable then Keep(st, host, RecentState(record, Unreadable))
      else Write(st, host, record, f.write)
  }

  function Read(st: Store, host: HostId, f: Faults): (r: Store)
    ensures host in r.states
  {
    var loaded := if host in st.states then st else Load(st, host, f.read);
    var current := loaded.states[host];
    if |current.record.visits| <= KEPT then loaded
    else Save(loaded, host, current.record.(visits := current.record.visits[..KEPT]), current.persistence, f)
  }

  function Visited(st: Store, host: HostId, v: Visit, f: Faults): Store {
    var read := Read(st, host, f);
    var current := read.states[host];
    var record := current.record.(visits := Take(Recall(current.record.visits, v), KEPT));
    var next := Save(read, host, record, current.persistence, f);
    next.(notices := next.notices + 1)
  }

  function Clear(st: Store, host: HostId, at: int, f: Faults): Store {
    var next := Write(st, host, Record(Some(at), []), f.write);
    next.(notices := next.notices + 1)
  }

  datatype RecentOp =
    | ReadRecent(host: HostId, f: Faults)
    | RecordVisit(host: HostId, visit: Visit, f: Faults)
    | ClearRecent(host: HostId, at: int, f: Faults)
    | Configure(device: Option<map<HostId, Stored>>)

  function Apply(st: Store, op: RecentOp): Store {
    match op
    case ReadRecent(host, f) => Read(st, host, f)
    case RecordVisit(host, visit, f) => Visited(st, host, visit, f)
    case ClearRecent(host, at, f) => Clear(st, host, at, f)
    case Configure(device) => Store(device, map[], st.notices + 1)
  }

  function Run(st: Store, ops: seq<RecentOp>): Store
    decreases |ops|
  {
    if ops == [] then st else Run(Apply(st, ops[0]), ops[1..])
  }

  // ---------------------------------------------------------------- the unbounded log

  /** Per host every visit since the last Clear, or on top of what the device held at the first read,
      most recent first: nothing is cut and nothing repeated is dropped. */
  type Log = map<HostId, seq<Visit>>

  /** What the log holds once a host has been read. */
  function Opened(st: Store, log: Log, host: HostId, f: Faults): seq<Visit> {
    if host in st.states && host in log then log[host]
    else if st.device.Some? && !f.read && host in st.device.value && st.device.value[host].Encoded? then
      st.device.value[host].record.visits
    else []
  }

  function Extend(st: Store, log: Log, op: RecentOp): Log {
    match op
    case ReadRecent(host, f) => log[host := Opened(st, log, host, f)]
    case RecordVisit(host, visit, f) => log[host := [visit] + Opened(st, log, host, f)]
    case ClearRecent(host, _, _) => log[host := []]
    case Configure(_) => map[]
  }

  function ExtendRun(st: Store, log: Log, ops: seq<RecentOp>): Log
    decreases |ops|
  {
    if ops == [] then log else ExtendRun(Apply(st, ops[0]), Extend(st, log, ops[0]), ops[1..])
  }

  /** The stored value of a host reads back as its record. */
  predicate ReadsBack(st: Store, host: HostId)
    requires host in st.states
  {
    st.device.Some? &&
    if host in st.device.value then Parse(st.device.value[host]) == Some(st.states[host].record)
    else st.states[host].record == EMPTY
  }

  /** The visits shown are the first 500 distinct ones of the log; `OnDevice` is only said when the device holds
      them. */
  ghost predicate HostInv(st: Store, log: Log, host: HostId)
    requires host in st.states
  {
    && host in log
    && st.states[host].record.visits == Take(Dedup(log[host]), KEPT)
    && (st.states[host].persistence == OnDevice ==> ReadsBack(st, host))
    && (st.states[host].persistence == InSession <==> st.device.None?)
  }

  ghost predicate Inv(st: Store, log: Log) {
    (forall h :: h in log ==> h in st.states) && forall h :: h in st.states ==> HostInv(st, log, h)
  }

  lemma {:induction false} SaveInv(st: Store, log: Log, host: HostId, record: Record, persistence: Persistence,
        f: Faults)
    requires host in log && record.visits == Take(Dedup(log[host]), KEPT)
    requires persistence == Unreadable ==> st.device.Some?
    ensures HostInv(Save(st, host, record, persistence, f), log, host)
  {
    DedupFacts(log[host]);
    DedupSame(record.visits);
  }

  /** Reading a host: the record is the first 500 of what was loaded or known. */
  lemma {:induction false} ReadInv(st: Store, log: Log, host: HostId, f: Faults)
    requires Inv(st, log)
    ensures HostInv(Read(st, host, f), log[host := Opened(st, log, host, f)], host)
  {
    var next := log[host := Opened(st, log, host, f)];
    if host in st.states {
      assert HostInv(st, log, host);
    } else {
      var loaded := Load(st, host, f.read);
      if st.device.Some? && host in st.device.value && Parse(st.device.value[host]).Some? {
        DedupFacts(st.device.value[host].record.visits);
        DedupSame(Dedup(st.device.value[host].record.visits));
      }
      var current := loaded.states[host];
      if |current.record.visits| > KEPT {
        SaveInv(loaded, next, host, current.record.(visits := current.record.visits[..KEPT]), current.persistence, f);
      }
    }
  }

  lemma {:induction false} VisitInv(st: Store, log: Log, host: HostId, v: Visit, f: Faults)
    requires Inv(st, log)
    ensures HostInv(Visited(st, host, v, f), log[host := [v] + Opened(st, log, host, f)], host)
  {
    hide Take, Recall, Dedup;
    ReadInv(st, log, host, f);
    var read, full := Read(st, host, f), Opened(st, log, host, f);
    var current := read.states[host];
    DedupFacts(full);
    RecallTake(Dedup(full), v, KEPT);
    RecallDedup(full, v);
    var record := current.record.(visits := Take(Recall(current.record.visits, v), KEPT));
    SaveInv(read, log[host := [v] + full], host, record, current.persistence, f);
  }

  /** The stored value of a host, present or absent, is the same in both. */
  predicate SameStored(st: Store, next: Store, host: HostId) {
    && (next.device.Some? <==> st.device.Some?)
    && (st.device.Some? ==> (host in next.device.value <==> host in st.device.value))
    && (st.device.Some? && host in st.device.value ==> next.device.value[host] == st.device.value[host])
  }

  predicate SameFor(st: Store, next: Store, host: HostId) {
    && (host in next.states <==> host in st.states)
    && (host in st.states ==> next.states[host] == st.states[host])
    && SameStored(st, next, host)
  }

  /** An operation on one host leaves every other host's state and stored value as they are. */
  lemma {:induction false} HostsApart(st: Store, op: RecentOp, other: HostId)
    requires !op.Configure? && op.host != other
    ensures SameFor(st, Apply(st, op), other)
  {
    hide Take, Recall, Parse;
    match op
    case ReadRecent(host, f) => ReadApart(st, host, f, other);
    case RecordVisit(host, visit, f) => ReadApart(st, host, f, other); hide Read;
    case ClearRecent(host, at, f) =>
  }

  lemma {:induction false} ReadApart(st: Store, host: HostId, f: Faults, other: HostId)
    requires host != other
    ensures SameFor(st, Read(st, host, f), other)
  {
    hide Parse;
  }

  lemma {:induction false} StepInv(st: Store, log: Log, op: RecentOp)
    requires Inv(st, log)
    ensures Inv(Apply(st, op), Extend(st, log, op))
  {
    if !op.Configure? {
      var next, more := Apply(st, op), Extend(st, log, op);
      HostStepInv(st, log, op);
      hide Apply, Extend, HostInv;
      StepHosts(st, log, op);
      forall h | h in next.states ensures HostInv(next, more, h) {
        if h != op.host {
          HostsApart(st, op, h);
        }
      }
    }
  }

  lemma {:induction false} StepHosts(st: Store, log: Log, op: RecentOp)
    requires !op.Configure?
    ensures Apply(st, op).states.Keys == st.states.Keys + {op.host}
    ensures Extend(st, log, op).Keys == log.Keys + {op.host}
    ensures forall h :: h in log && h != op.host ==> Extend(st, log, op)[h] == log[h]
  {
    hide Take, Recall, Parse, Opened;
  }

  lemma {:induction false} HostStepInv(st: Store, log: Log, op: RecentOp)
    requires Inv(st, log) && !op.Configure?
    ensures op.host in Apply(st, op).states && HostInv(Apply(st, op), Extend(st, log, op), op.host)
  {
    match op
    case ReadRecent(host, f) => ReadInv(st, log, host, f);
    case RecordVisit(host, visit, f) => VisitInv(st, log, host, visit, f);
    case ClearRecent(host, at, f) =>
  }

  /** Over every run: each host shows the first 500 distinct visits of its whole log, and says its visits are on the
      device only when the stored value reads back as them. */
  lemma {:induction false} RunInv(st: Store, log: Log, ops: seq<RecentOp>)
    requires Inv(st, log)
    ensures Inv(Run(st, ops), ExtendRun(st, log, ops))
    decreases |ops|
  {
    hide Inv, Apply, Extend;
    if ops != [] {
      StepInv(st, log, ops[0]);
      RunInv(Apply(st, ops[0]), Extend(st, log, ops[0]), ops[1..]);
    }
  }

  /** Until Clear an unreadable value stays unreadable and its stored bytes stay as they are. */
  lemma {:induction false} UnreadableStep(st: Store, op: RecentOp, host: HostId)
    requires host in st.states && st.states[host].persistence == Unreadable
    requires !op.Configure? && !(op.ClearRecent? && op.host == host)
    ensures var next := Apply(st, op);
      && host in next.states && next.states[host].persistence == Unreadable
      && SameStored(st, next, host)
  {
    hide Take, Recall, Parse;
    if op.host != host { hide Apply; HostsApart(st, op, host); }
  }

  lemma {:induction false} UnreadableKept(st: Store, ops: seq<RecentOp>, host: HostId)
    requires host in st.states && st.states[host].persistence == Unreadable
    requires forall i :: 0 <= i < |ops| ==> !ops[i].Configure? && !(ops[i].ClearRecent? && ops[i].host == host)
    ensures var next := Run(st, ops);
      && host in next.states && next.states[host].persistence == Unreadable
      && SameStored(st, next, host)
    decreases |ops|
  {
    if ops != [] {
      hide Apply;
      UnreadableStep(st, ops[0], host);
      UnreadableKept(Apply(st, ops[0]), ops[1..], host);
    }
  }

  // ---------------------------------------------------------------- what reaches the device

  /** The record the device holds for a host that has not been read. */
  function StoredRecord(st: Store, host: HostId): Option<Record> {
    if st.device.None? || host !in st.device.value then Some(EMPTY)
    else if st.device.value[host].Encoded? then Some(st.device.value[host].record)
    else None
  }

  /** The stored value must stay untouched: it was found unreadable, or is when it is read now. */
  predicate MustKeep(st: Store, host: HostId, f: Faults) {
    if host in st.states then st.states[host].persistence == Unreadable
    else st.device.Some? && (f.read || StoredRecord(st, host).None?)
  }

  /** When the host was last cleared, as far as is known. */
  function ClearedAt(st: Store, host: HostId, f: Faults): Option<int> {
    if host in st.states then st.states[host].record.clearedAt
    else if MustKeep(st, host, f) then None
    else StoredRecord(st, host).value.clearedAt
  }

  /** Which of the four a state must say, and what the device holds then: the record, exactly when it says so. */
  predicate Persisted(st: Store, next: Store, host: HostId, keep: bool, fails: bool) {
    && host in next.states
    && (next.states[host].persistence == InSession <==> st.device.None?)
    && (next.states[host].persistence == Unreadable <==> st.device.Some? && keep)
    && (next.states[host].persistence == WriteFailed <==> st.device.Some? && !keep && fails)
    && (next.device == if next.states[host].persistence == OnDevice
                       then Some(st.device.value[host := Encoded(next.states[host].record)]) else st.device)
  }

  /** A visit is on the device unless there is none, the value must stay, or the write throws. It keeps the time of
      the last Clear, is first in the record, and is announced. */
  lemma {:induction false} VisitPersisted(st: Store, host: HostId, v: Visit, f: Faults)
    requires host in st.states ==> (st.states[host].persistence == InSession <==> st.device.None?)
    ensures var next := Visited(st, host, v, f);
      && Persisted(st, next, host, MustKeep(st, host, f), f.write)
      && next.states[host].record.clearedAt == ClearedAt(st, host, f)
      && next.states[host].record.visits != [] && next.states[host].record.visits[0] == v
      && next.notices == st.notices + 1
  {
    hide Without, Dedup;
    var read, next := Read(st, host, f), Visited(st, host, v, f);
    if st.device.Some? {
      var saved := Encoded(next.states[host].record);
      assert read.device.value[host := saved] == st.device.value[host := saved];
    }
  }

  /** A Clear writes an empty record with its time, over an unreadable value too. */
  lemma {:induction false} ClearPersisted(st: Store, host: HostId, at: int, f: Faults)
    ensures var next := Clear(st, host, at, f);
      && Persisted(st, next, host, false, f.write)
      && next.states[host].record == Record(Some(at), [])
      && next.notices == st.notices + 1
  {}

  /** Nothing throws, every stored value can be read, and all that is known is on the device. */
  ghost predicate Durable(st: Store) {
    && st.device.Some? && Readable(st.device.value)
    && forall h :: h in st.states ==> st.states[h].persistence == OnDevice
  }

  ghost predicate Readable(device: map<HostId, Stored>) { forall h :: h in device ==> device[h].Encoded? }

  ghost predicate Undisturbed(op: RecentOp) {
    match op
    case ReadRecent(_, f) => f == Faults(false, false)
    case RecordVisit(_, _, f) => f == Faults(false, false)
    case ClearRecent(_, _, f) => f == Faults(false, false)
    case Configure(device) => device.Some? && Readable(device.value)
  }

  lemma {:induction false} DurableStep(st: Store, op: RecentOp)
    requires Durable(st) && Undisturbed(op)
    ensures Durable(Apply(st, op))
  {
    hide Take, Recall, Dedup;
  }

  /** Over every run in which no call throws, all that is known is on the device. */
  lemma {:induction false} RunDurable(st: Store, ops: seq<RecentOp>)
    requires Durable(st) && forall i :: 0 <= i < |ops| ==> Undisturbed(ops[i])
    ensures Durable(Run(st, ops))
    decreases |ops|
  {
    hide Durable, Undisturbed, Apply;
    if ops != [] {
      DurableStep(st, ops[0]);
      RunDurable(Apply(st, ops[0]), ops[1..]);
    }
  }

  // ---------------------------------------------------------------- the module's mutable state

  class RecentStore {
    var device: Option<map<HostId, Stored>>
    var states: map<HostId, RecentState>
    var notices: nat

    function State(): Store
      reads this
    {
      Store(device, states, notices)
    }

    constructor (device: Option<map<HostId, Stored>>)
      ensures State() == Store(device, map[], 0)
    {
      this.device, states, notices := device, map[], 0;
    }

    method ConfigureStorage(next: Option<map<HostId, Stored>>)
      modifies this
      ensures State() == Apply(old(State()), Configure(next))
    {
      device, states, notices := next, map[], notices + 1;
    }

    method Remember(host: HostId, next: RecentState)
      modifies this`states
      ensures State() == Keep(old(State()), host, next)
    {
      states := states[host := next];
    }

    method WriteThrough(host: HostId, record: Record, fails: bool)
      modifies this`states, this`device
      ensures State() == Write(old(State()), host, record, fails)
    {
      if device.None? { Remember(host, RecentState(record, InSession)); }
      else if fails { Remember(host, RecentState(record, WriteFailed)); }
      else {
        device := Some(device.value[host := Encoded(record)]);
        Remember(host, RecentState(record, OnDevice));
      }
    }

    method LoadRecent(host: HostId, fails: bool)
      modifies this`states
      ensures State() == Load(old(State()), host, fails)
    {
      if device.None? { Remember(host, RecentState(EMPTY, InSession)); return; }
      if !fails {
        if host !in device.value { Remember(host, RecentState(EMPTY, OnDevice)); return; }
        var record := Parse(device.value[host]);
        if record.Some? { Remember(host, RecentState(record.value, OnDevice)); return; }
      }
      Remember(host, RecentState(EMPTY, Unreadable));
    }

    method ReadRecent(host: HostId, f: Faults) returns (r: RecentState)
      modifies this`states, this`device
      ensures State() == Read(old(State()), host, f) && host in states && r == states[host]
    {
      if host !in states { LoadRecent(host, f.read); }
      var current := states[host];
      if |current.record.visits| > KEPT {
        var record := current.record.(visits := current.record.visits[..KEPT]);
        if current.persistence == Unreadable { Remember(host, RecentState(record, Unreadable)); }
        else { WriteThrough(host, record, f.write); }
      }
      r := states[host];
    }

    method RecordVisit(host: HostId, visit: Visit, f: Faults) returns (r: RecentState)
      modifies this
      ensures State() == Visited(old(State()), host, visit, f) && host in states && r == states[host]
    {
      hide Read, Write, Take, Recall;
      var current := ReadRecent(host, f);
      var record := current.record.(visits := Take(Recall(current.record.visits, visit), KEPT));
      if current.persistence == Unreadable { Remember(host, RecentState(record, Unreadable)); }
      else { WriteThrough(host, record, f.write); }
      notices := notices + 1;
      r := states[host];
    }

    method ClearRecent(host: HostId, at: int, f: Faults) returns (r: RecentState)
      modifies this
      ensures State() == Clear(old(State()), host, at, f) && host in states && r == states[host]
    {
      WriteThrough(host, Record(Some(at), []), f.write);
      notices := notices + 1;
      r := states[host];
    }
  }
}

/** Reapplying a local settings draft to the latest saved settings: a three-way merge. */
module OrganizationDraft {
  import opened Text
  import opened JsText
  import opened Lists

  datatype Grouping = Hierarchy | Role | Flat

  datatype Appearance = System | Light | Dark

  datatype Layout = Grouped | Plain

  datatype Mapping = Mapping(workstream: Option<string>, epic: Option<string>)

  type Mappings = map<string, Mapping>

  type IdLists = map<string, seq<string>>

  datatype Field = Workstream | Epic

  /** The saved settings. `newLead` stands for the model a new lead starts with; a draft's edit of it is not
      reapplied. */
  datatype Settings = Settings(
    grouping: Grouping,
    layout: Option<Layout>,
    appearance: Appearance,
    favorites: seq<string>,
    expandedGroups: map<string, bool>,
    siblingOrder: IdLists,
    displayMappings: Mappings,
    planAssociations: IdLists,
    newLead: Option<string>)

  // ---------------------------------------------------------------- display mappings

  function Get<V>(m: map<string, V>, key: string): Option<V> { if key in m then Some(m[key]) else None }

  /** `m[key] = value`, or `delete m[key]`. */
  function Put<V>(m: map<string, V>, key: string, value: Option<V>): (r: map<string, V>)
    ensures forall k :: Get(r, k) == if k == key then value else Get(m, k)
  {
    if value.Some? then m[key := value.value] else m - {key}
  }

  lemma {:induction false} SameMap<V>(a: map<string, V>, b: map<string, V>)
    requires forall k :: Get(a, k) == Get(b, k)
    ensures a == b
  {
    forall k ensures k in a <==> k in b { assert Get(a, k) == Get(b, k); }
    forall k | k in a ensures a[k] == b[k] { assert Get(a, k) == Get(b, k); }
  }

  function FieldOf(mapping: Mapping, field: Field): Option<string> {
    match field case Workstream => mapping.workstream case Epic => mapping.epic
  }

  function WithField(mapping: Mapping, field: Field, value: Option<string>): Mapping {
    match field case Workstream => mapping.(workstream := value) case Epic => mapping.(epic := value)
  }

  const BARE := Mapping(None, None)

  /** `mappings[id]?.[field]`. */
  function Read(mappings: Mappings, id: string, field: Field): Option<string> {
    if id in mappings then FieldOf(mappings[id], field) else None
  }

  /** The text a field is set to: trimmed, and none when nothing is left. */
  function Cleaned(value: Option<string>): (r: Option<string>)
    ensures r.Some? ==> r.value != "" && Trim(r.value) == r.value
  {
    if value.None? || Trim(value.value) == "" then None else Some(Trim(value.value))
  }

  /** A mapping with no field left is no mapping. */
  function Kept(mapping: Mapping): Option<Mapping> { if mapping == BARE then None else Some(mapping) }

  function MappingAt(mappings: Mappings, id: string): Mapping { if id in mappings then mappings[id] else BARE }

  function SetField(mappings: Mappings, id: string, field: Field, value: Option<string>): Mappings {
    Put(mappings, id, Kept(WithField(MappingAt(mappings, id), field, Cleaned(value))))
  }

  method SetDisplayMappingField(mappings: Mappings, id: string, field: Field, value: Option<string>)
    returns (next: Mappings)
    ensures next == SetField(mappings, id, field, value)
  {
    hide Cleaned, Trim;
    next := mappings;
    var mapping := if id in next then next[id] else BARE;
    mapping := WithField(mapping, field, Cleaned(value));
    hide WithField;
    if mapping != BARE { next := next[id := mapping]; } else { next := next - {id}; }
  }

  /** Setting a field sets that field alone, and leaves no mapping behind without a field. */
  lemma {:induction false} SetFieldReads(mappings: Mappings, id: string, field: Field, value: Option<string>)
    ensures var next := SetField(mappings, id, field, value);
      && Read(next, id, field) == Cleaned(value)
      && (forall f :: f != field ==> Read(next, id, f) == Read(mappings, id, f))
      && (id in next <==> Read(next, id, Workstream).Some? || Read(next, id, Epic).Some?)
      && (forall k :: k != id ==> Get(next, k) == Get(mappings, k))
  {
    hide Cleaned, Trim;
    var mapping := WithField(MappingAt(mappings, id), field, Cleaned(value));
    hide Put;
    assert Get(SetField(mappings, id, field, value), id) == Kept(mapping);
  }

  /** What a mapping says of a field, or that it says nothing. */
  predicate Says(mappings: Mappings, id: string, field: Field, text: Option<string>) {
    match text
    case None => id in mappings ==> (field.Workstream? ==> mappings[id].workstream.None?) &&
                                    (field.Epic? ==> mappings[id].epic.None?)
    case Some(_) => id in mappings && (field.Workstream? ==> mappings[id].workstream == text) &&
                    (field.Epic? ==> mappings[id].epic == text)
  }

  lemma {:induction false} SaysRead(mappings: Mappings, id: string, field: Field, text: Option<string>)
    ensures Says(mappings, id, field, text) <==> Read(mappings, id, field) == text
  {}

  /** A field that is set says its text without the space around it, and nothing if that is all there is. */
  lemma {:induction false} SetFieldSays(mappings: Mappings, id: string, field: Field, pad: string, text: string,
                                        tail: string)
    requires AllSpace(pad) && AllSpace(tail) && Neat(text)
    ensures Says(SetField(mappings, id, field, Some(pad + text + tail)), id, field,
        if text == "" then None else Some(text))
    ensures Says(SetField(mappings, id, field, None), id, field, None)
  {
    TrimOf(pad, text, tail);
    hide Trim;
    SetFieldReads(mappings, id, field, Some(pad + text + tail));
    SetFieldReads(mappings, id, field, None);
  }

  /** Whether the local draft edited a field. */
  predicate FieldEdited(base: Mappings, local: Mappings, id: string, field: Field) {
    Read(base, id, field) != Read(local, id, field)
  }

  predicate MappingEdited(base: Mappings, local: Mappings, id: string) {
    FieldEdited(base, local, id, Workstream) || FieldEdited(base, local, id, Epic)
  }

  function MergedField(base: Mappings, local: Mappings, current: Mappings, id: string, field: Field): Option<string> {
    if FieldEdited(base, local, id, field) then Cleaned(Read(local, id, field)) else Read(current, id, field)
  }

  /** The mapping an id should end with. */
  function MergedMapping(base: Mappings, local: Mappings, current: Mappings, id: string): Option<Mapping> {
    if !MappingEdited(base, local, id) then Get(current, id)
    else Kept(Mapping(MergedField(base, local, current, id, Workstream), MergedField(base, local, current, id, Epic)))
  }

  /** Setting the edited fields one after the other gives the merged mapping. */
  lemma {:induction false} MappingStep(base: Mappings, local: Mappings, current: Mappings,
                                       m0: Mappings, m1: Mappings, m2: Mappings, id: string)
    requires Get(m0, id) == Get(current, id)
    requires m1 ==
      if FieldEdited(base, local, id, Workstream) then SetField(m0, id, Workstream, Read(local, id, Workstream)) else m0
    requires m2 == if FieldEdited(base, local, id, Epic) then SetField(m1, id, Epic, Read(local, id, Epic)) else m1
    ensures Get(m2, id) == MergedMapping(base, local, current, id)
    ensures forall k :: k != id ==> Get(m2, k) == Get(m0, k)
  {
    hide Cleaned;
  }

  lemma {:induction false} UntouchedMappings(base: Mappings, local: Mappings, current: Mappings)
    ensures forall id :: id !in base && id !in local ==> MergedMapping(base, local, current, id) == Get(current, id)
  {}

  method MergeMappings(base: Mappings, local: Mappings, current: Mappings)
    returns (mappings: Mappings)
    ensures forall id :: Get(mappings, id) == MergedMapping(base, local, current, id)
  {
    hide Cleaned, SetField, MergedMapping, FieldOf, Get, Read;
    mappings := current;
    var todo := base.Keys + local.Keys;
    UntouchedMappings(base, local, current);
    while todo != {}
      invariant todo <= base.Keys + local.Keys
      invariant forall id :: id in todo ==> Get(mappings, id) == Get(current, id)
      invariant forall id :: id !in todo ==> Get(mappings, id) == MergedMapping(base, local, current, id)
      decreases |todo|
    {
      var id :| id in todo;
      ghost var m0 := mappings;
      if Read(base, id, Workstream) != Read(local, id, Workstream) {
        mappings := SetDisplayMappingField(mappings, id, Workstream, Read(local, id, Workstream));
      }
      ghost var m1 := mappings;
      if Read(base, id, Epic) != Read(local, id, Epic) {
        mappings := SetDisplayMappingField(mappings, id, Epic, Read(local, id, Epic));
      }
      MappingStep(base, local, current, m0, m1, mappings, id);
      todo := todo - {id};
    }
  }

  // ---------------------------------------------------------------- maps and sets

  /** The value a key should end with: the local one if it was edited, else the current one. */
  function MergedValue<V(==)>(base: map<string, V>, local: map<string, V>, current: map<string, V>,
        key: string): Option<V> {
    if Get(base, key) == Get(local, key) then Get(current, key) else Get(local, key)
  }

  method MergeMap<V(==)>(base: map<string, V>, local: map<string, V>, current: map<string, V>)
    returns (result: map<string, V>)
    ensures forall key :: Get(result, key) == MergedValue(base, local, current, key)
  {
    result := current;
    var todo := base.Keys + local.Keys;
    while todo != {}
      invariant todo <= base.Keys + local.Keys
      invariant forall k ::
        Get(result, k) == if k in todo then Get(current, k) else MergedValue(base, local, current, k)
      decreases |todo|
    {
      var key :| key in todo;
      todo := todo - {key};
      if Get(base, key) == Get(local, key) { continue; }
      if key in local { result := result[key := local[key]]; } else { result := result - {key}; }
    }
  }

  /** The list without the dropped ids. */
  function Drop(s: seq<string>, dropped: set<string>): seq<string> {
    if s == [] then [] else (if s[0] in dropped then [] else [s[0]]) + Drop(s[1..], dropped)
  }

  function MergeSet(base: seq<string>, local: seq<string>, current: seq<string>): seq<string> {
    var removed := Elements(Drop(base, Elements(local)));
    Unique(Drop(current, removed) + Drop(local, Elements(base)))
  }

  lemma {:induction false} DropElements(s: seq<string>, dropped: set<string>)
    ensures Elements(Drop(s, dropped)) == Elements(s) - dropped
  {
    if s != [] {
      ElementsHead(s);
      DropElements(s[1..], dropped);
      ElementsCons(s[0], Drop(s[1..], dropped));
      assert [] + Drop(s[1..], dropped) == Drop(s[1..], dropped);
    }
  }

  lemma {:induction false} DropNothing(s: seq<string>, dropped: set<string>)
    requires Elements(s) !! dropped
    ensures Drop(s, dropped) == s
  {
    if s != [] {
      ElementsHead(s);
      DropNothing(s[1..], dropped);
    }
  }

  /** Every element is there exactly when the local list says so, if the draft edited it, else when the
      current list does; and each is there once. */
  lemma {:induction false} MergeSetElements(base: seq<string>, local: seq<string>, current: seq<string>)
    ensures Distinct(MergeSet(base, local, current))
    ensures forall x :: x in MergeSet(base, local, current) <==>
      if (x in base) != (x in local) then x in local else x in current
  {
    var removed := Elements(Drop(base, Elements(local)));
    var kept, added := Drop(current, removed), Drop(local, Elements(base));
    DropElements(base, Elements(local));
    DropElements(current, removed);
    DropElements(local, Elements(base));
    UnseenFacts({}, kept + added);
    assert Elements(kept + added) == Elements(kept) + Elements(added);
    forall x ensures x in MergeSet(base, local, current) <==> x in Elements(kept) || x in Elements(added) {
      assert x in MergeSet(base, local, current) <==> x in Elements(MergeSet(base, local, current));
    }
  }

  lemma {:induction false} EmptyList(s: seq<string>)
    requires Elements(s) == {}
    ensures s == []
  {
    if s != [] { ElementsHead(s); }
  }

  /** An unedited list comes back with its repeated elements dropped. */
  lemma {:induction false} MergeSetUnedited(base: seq<string>, current: seq<string>)
    ensures MergeSet(base, base, current) == Unique(current)
  {
    DropElements(base, Elements(base));
    var none := Drop(base, Elements(base));
    assert Elements(none) == {};
    EmptyList(none);
    DropNothing(current, {});
    assert current + [] == current;
  }

  /** Merging once more changes nothing, not even the order. */
  lemma {:induction false} MergeSetTwice(base: seq<string>, local: seq<string>, current: seq<string>)
    ensures MergeSet(base, local, MergeSet(base, local, current)) == MergeSet(base, local, current)
  {
    var once := MergeSet(base, local, current);
    var removed := Elements(Drop(base, Elements(local)));
    var added := Drop(local, Elements(base));
    MergeSetElements(base, local, current);
    DropElements(base, Elements(local));
    DropElements(local, Elements(base));
    DropNothing(once, removed);
    UniqueKept(once, added);
  }

  // ---------------------------------------------------------------- the draft

  method MergeAssociations(base: IdLists, local: IdLists, current: IdLists)
    returns (associations: IdLists)
    ensures forall id :: Get(associations, id) == MergedAssociation(base, local, current, id)
  {
    hide MergeSet;
    associations := MergeMap(base, local, current);
    var todo := local.Keys;
    while todo != {}
      invariant todo <= local.Keys
      invariant forall id :: id in todo ==> Get(associations, id) == MergedValue(base, local, current, id)
      invariant forall id :: id !in todo ==> Get(associations, id) == MergedAssociation(base, local, current, id)
      decreases |todo|
    {
      var id :| id in todo;
      todo := todo - {id};
      if Get(base, id) != Some(local[id]) {
        associations := associations[id := MergeSet(Listed(base, id), local[id], Listed(current, id))];
      }
    }
  }

  function Listed(m: IdLists, id: string): seq<string> { if id in m then m[id] else [] }

  /** An edited association is merged element by element, a removed one is removed. */
  function MergedAssociation(base: IdLists, local: IdLists, current: IdLists, id: string)
    : Option<seq<string>>
  {
    if Get(base, id) == Get(local, id) then Get(current, id)
    else if id !in local then None
    else Some(MergeSet(Listed(base, id), local[id], Listed(current, id)))
  }

  function Pick<T(==)>(base: T, local: T, current: T): T { if local == base then current else local }

  /** The merge, field by field, of three settings. */
  ghost predicate Merged(base: Settings, local: Settings, current: Settings, r: Settings) {
    && r.grouping == Pick(base.grouping, local.grouping, current.grouping)
    && r.layout == Pick(base.layout, local.layout, current.layout)
    && r.appearance == Pick(base.appearance, local.appearance, current.appearance)
    && r.newLead == current.newLead
    && r.favorites == MergeSet(base.favorites, local.favorites, current.favorites)
    && (forall k ::
      Get(r.expandedGroups, k) == MergedValue(base.expandedGroups, local.expandedGroups, current.expandedGroups, k))
    && (forall k ::
      Get(r.siblingOrder, k) == MergedValue(base.siblingOrder, local.siblingOrder, current.siblingOrder, k))
    && (forall id ::
      Get(r.displayMappings, id) ==
        MergedMapping(base.displayMappings, local.displayMappings, current.displayMappings, id))
    && (forall id ::
      Get(r.planAssociations, id) ==
        MergedAssociation(base.planAssociations, local.planAssociations, current.planAssociations, id))
  }

  /** Puts the edits of a draft, made from `base`, on top of settings that have moved on to `current`. */
  method RebaseOrganizationDraft(base: Settings, local: Settings, current: Settings) returns (merged: Settings)
    ensures Merged(base, local, current, merged)
  {
    hide MergeSet, MergedMapping, MergedAssociation;
    var mappings := MergeMappings(base.displayMappings, local.displayMappings, current.displayMappings);
    var associations := MergeAssociations(base.planAssociations, local.planAssociations, current.planAssociations);
    var expanded := MergeMap(base.expandedGroups, local.expandedGroups, current.expandedGroups);
    var order := MergeMap(base.siblingOrder, local.siblingOrder, current.siblingOrder);
    merged := current.(
      grouping := if local.grouping == base.grouping then current.grouping else local.grouping,
      appearance := if local.appearance == base.appearance then current.appearance else local.appearance,
      favorites := MergeSet(base.favorites, local.favorites, current.favorites),
      expandedGroups := expanded,
      siblingOrder := order,
      displayMappings := mappings,
      planAssociations := associations);
    merged := merged.(layout := if local.layout == base.layout then current.layout else local.layout);
  }

  /** The merge fixes the result. */
  lemma {:induction false} MergedUnique(base: Settings, local: Settings, current: Settings, a: Settings, b: Settings)
    requires Merged(base, local, current, a) && Merged(base, local, current, b)
    ensures a == b
  {
    hide MergeSet, MergedMapping, MergedAssociation, MergedValue, Get;
    SameMap(a.expandedGroups, b.expandedGroups);
    SameMap(a.siblingOrder, b.siblingOrder);
    SameMap(a.displayMappings, b.displayMappings);
    SameMap(a.planAssociations, b.planAssociations);
  }

  /** A draft without edits gives back the current settings exactly when those list no favorite twice. */
  lemma {:induction false} MergedUnedited(base: Settings, current: Settings, r: Settings)
    requires Merged(base, base, current, r)
    ensures r == current.(favorites := Unique(current.favorites))
    ensures r == current <==> Distinct(current.favorites)
  {
    hide MergeSet;
    MergeSetUnedited(base.favorites, current.favorites);
    UniqueSame(current.favorites);
    SameMap(r.expandedGroups, current.expandedGroups);
    SameMap(r.siblingOrder, current.siblingOrder);
    SameMap(r.displayMappings, current.displayMappings);
    SameMap(r.planAssociations, current.planAssociations);
  }

  /** Each field of each mapping is the local one, trimmed, if the draft edited it, else the current one. */
  lemma {:induction false} MergedFields(base: Settings, local: Settings, current: Settings, r: Settings, id: string,
        field: Field)
    requires Merged(base, local, current, r)
    ensures Read(r.displayMappings, id, field)
         == MergedField(base.displayMappings, local.displayMappings, current.displayMappings, id, field)
  {
    hide MergeSet, MergedAssociation, MergedValue, Trim;
    assert Get(r.displayMappings, id) ==
      MergedMapping(base.displayMappings, local.displayMappings, current.displayMappings, id);
  }

  /** After the merge a mapping says what the current one says, where the draft and its base say the same; where they
      do not, it says what the draft says, without space around it. */
  lemma {:induction false} MergedSays(base: Settings, local: Settings, current: Settings, r: Settings, id: string,
        field: Field, was: Option<string>, now: Option<string>, pad: string, text: string, tail: string)
    requires Merged(base, local, current, r)
    requires Says(base.displayMappings, id, field, was) && Says(local.displayMappings, id, field, now)
    ensures was == now ==>
              forall t :: Says(current.displayMappings, id, field, t) ==> Says(r.displayMappings, id, field, t)
    ensures was != now && now.None? ==> Says(r.displayMappings, id, field, None)
    ensures was != now && AllSpace(pad) && AllSpace(tail) && Neat(text) && now == Some(pad + text + tail) ==>
              Says(r.displayMappings, id, field, if text == "" then None else Some(text))
  {
    if AllSpace(pad) && AllSpace(tail) && Neat(text) { TrimOf(pad, text, tail); }
    hide Merged, Trim, Says, Read;
    MergedFields(base, local, current, r, id, field);
    SaysRead(base.displayMappings, id, field, was);
    SaysRead(local.displayMappings, id, field, now);
    forall t ensures Says(current.displayMappings, id, field, t) <==> Read(current.displayMappings, id, field) == t {
      SaysRead(current.displayMappings, id, field, t);
    }
    forall t ensures Says(r.displayMappings, id, field, t) <==> Read(r.displayMappings, id, field) == t {
      SaysRead(r.displayMappings, id, field, t);
    }
  }

  predicate Associated(m: IdLists, id: string, plan: string) { id in m && plan in m[id] }

  /** A plan is associated after the merge exactly when the draft says so, if it edited that, else when the current
      settings do; no list holds a plan twice that the draft edited. An id goes when the draft removed it. */
  lemma {:induction false} MergedAssociated(base: Settings, local: Settings, current: Settings, r: Settings, id: string,
                                            plan: string)
    requires Merged(base, local, current, r)
    ensures var b, l, c, m := base.planAssociations, local.planAssociations, current.planAssociations,
        r.planAssociations;
      && (Get(b, id) == Get(l, id) ==> Get(m, id) == Get(c, id))
      && (id in b && id !in l ==> id !in m)
      && (id in l && Get(b, id) != Get(l, id) ==>
            && id in m && Distinct(m[id])
            && (Associated(m, id, plan) <==>
                if Associated(b, id, plan) != Associated(l, id, plan) then Associated(l, id, plan)
                else Associated(c, id, plan)))
  {
    var b, l, c := base.planAssociations, local.planAssociations, current.planAssociations;
    assert Get(r.planAssociations, id) == MergedAssociation(b, l, c, id);
    hide Merged, MergeSet;
    if id in l { MergeSetElements(Listed(b, id), l[id], Listed(c, id)); }
  }

  lemma {:induction false} AssociationTwice(base: IdLists, local: IdLists, current: IdLists, once: IdLists, id: string)
    requires Get(once, id) == MergedAssociation(base, local, current, id)
    ensures MergedAssociation(base, local, once, id) == Get(once, id)
  {
    hide MergeSet;
    if id in local { MergeSetTwice(Listed(base, id), local[id], Listed(current, id)); }
  }

  /** Reapplying the draft to its own result changes nothing: every second result is the first. */
  lemma {:induction false} MergedTwice(base: Settings, local: Settings, current: Settings, once: Settings)
    requires Merged(base, local, current, once)
    ensures forall r :: Merged(base, local, once, r) <==> r == once
  {
    MergedAgain(base, local, current, once);
    forall r | Merged(base, local, once, r) ensures r == once { MergedUnique(base, local, once, r, once); }
  }

  lemma {:induction false} MergedAgain(base: Settings, local: Settings, current: Settings, once: Settings)
    requires Merged(base, local, current, once)
    ensures Merged(base, local, once, once)
  {
    MergeSetTwice(base.favorites, local.favorites, current.favorites);
    forall id ensures Get(once.displayMappings, id) ==
      MergedMapping(base.displayMappings, local.displayMappings, once.displayMappings, id) {
    }
    forall id ensures Get(once.planAssociations, id) ==
      MergedAssociation(base.planAssociations, local.planAssociations, once.planAssociations, id) {
      AssociationTwice(base.planAssociations, local.planAssociations, current.planAssociations, once.planAssociations,
        id);
    }
  }

  // ---------------------------------------------------------------- two drafts

  ghost predicate KeysApart<V(!new)>(base: map<string, V>, a: map<string, V>, b: map<string, V>) {
    forall k :: Get(base, k) == Get(a, k) || Get(base, k) == Get(b, k)
  }

  /** Two drafts of the same base that edit different values. Favorites need nothing: both drafts can only
      have added, or only have removed, the same id. */
  ghost predicate EditsApart(base: Settings, a: Settings, b: Settings) {
    && (a.grouping == base.grouping || b.grouping == base.grouping)
    && (a.layout == base.layout || b.layout == base.layout)
    && (a.appearance == base.appearance || b.appearance == base.appearance)
    && KeysApart(base.expandedGroups, a.expandedGroups, b.expandedGroups)
    && KeysApart(base.siblingOrder, a.siblingOrder, b.siblingOrder)
    && KeysApart(base.planAssociations, a.planAssociations, b.planAssociations)
    && (forall id, f ::
      !FieldEdited(base.displayMappings, a.displayMappings, id, f) ||
        !FieldEdited(base.displayMappings, b.displayMappings, id, f))
  }

  /** The same settings but for the order of the favorites. */
  predicate SameButOrder(a: Settings, b: Settings) {
    a == b.(favorites := a.favorites) && Distinct(a.favorites) && Distinct(b.favorites) &&
      Elements(a.favorites) == Elements(b.favorites)
  }

  lemma {:induction false} MappingsCommute(base: Mappings, a: Mappings, b: Mappings, current: Mappings,
                                           ra: Mappings, rb: Mappings, id: string)
    requires Get(ra, id) == MergedMapping(base, a, current, id) && Get(rb, id) == MergedMapping(base, b, current, id)
    requires forall f :: !FieldEdited(base, a, id, f) || !FieldEdited(base, b, id, f)
    ensures MergedMapping(base, b, ra, id) == MergedMapping(base, a, rb, id)
  {
    hide Trim;
    assert !FieldEdited(base, a, id, Workstream) || !FieldEdited(base, b, id, Workstream);
    assert !FieldEdited(base, a, id, Epic) || !FieldEdited(base, b, id, Epic);
  }

  lemma {:induction false} MapsCommute<V(!new)>(base: map<string, V>, a: map<string, V>, b: map<string, V>,
        current: map<string, V>, ra: map<string, V>, rb: map<string, V>, rab: map<string, V>, rba: map<string, V>)
    requires KeysApart(base, a, b)
    requires forall k :: Get(ra, k) == MergedValue(base, a, current, k)
    requires forall k :: Get(rb, k) == MergedValue(base, b, current, k)
    requires forall k :: Get(rab, k) == MergedValue(base, b, ra, k)
    requires forall k :: Get(rba, k) == MergedValue(base, a, rb, k)
    ensures rab == rba
  {
    forall k ensures Get(rab, k) == Get(rba, k) { }
    SameMap(rab, rba);
  }

  lemma {:induction false} AssociationsCommute(base: IdLists, a: IdLists, b: IdLists,
                                               current: IdLists, ra: IdLists, rb: IdLists, id: string)
    requires Get(ra, id) == MergedAssociation(base, a, current, id) &&
      Get(rb, id) == MergedAssociation(base, b, current, id)
    requires Get(base, id) == Get(a, id) || Get(base, id) == Get(b, id)
    ensures MergedAssociation(base, b, ra, id) == MergedAssociation(base, a, rb, id)
  {
    hide MergeSet;
  }

  /** Applying both drafts to a list of favorites gives the same elements in either order. */
  lemma {:induction false} SetsCommute(base: seq<string>, a: seq<string>, b: seq<string>, current: seq<string>)
    ensures var rab, rba := MergeSet(base, b, MergeSet(base, a, current)),
      MergeSet(base, a, MergeSet(base, b, current));
      Distinct(rab) && Distinct(rba) && Elements(rab) == Elements(rba)
  {
    hide MergeSet;
    MergeSetElements(base, a, current);
    MergeSetElements(base, b, MergeSet(base, a, current));
    MergeSetElements(base, b, current);
    MergeSetElements(base, a, MergeSet(base, b, current));
  }

  lemma {:induction false} DisplayCommute(base: Settings, a: Settings, b: Settings, current: Settings,
                                          ra: Settings, rb: Settings, rab: Settings, rba: Settings)
    requires EditsApart(base, a, b)
    requires Merged(base, a, current, ra) && Merged(base, b, ra, rab)
    requires Merged(base, b, current, rb) && Merged(base, a, rb, rba)
    ensures rab.displayMappings == rba.displayMappings && rab.planAssociations == rba.planAssociations
  {
    hide MergeSet, MergedMapping, MergedField, MergedAssociation, MergedValue;
    forall id ensures Get(rab.displayMappings, id) == Get(rba.displayMappings, id) {
      MappingsCommute(base.displayMappings, a.displayMappings, b.displayMappings, current.displayMappings,
        ra.displayMappings, rb.displayMappings, id);
    }
    SameMap(rab.displayMappings, rba.displayMappings);
    forall id ensures Get(rab.planAssociations, id) == Get(rba.planAssociations, id) {
      AssociationsCommute(base.planAssociations, a.planAssociations, b.planAssociations, current.planAssociations,
        ra.planAssociations, rb.planAssociations, id);
    }
    SameMap(rab.planAssociations, rba.planAssociations);
  }

  /** Drafts that edit different values may be reapplied in either order. */
  lemma {:induction false} EditsCommute(base: Settings, a: Settings, b: Settings, current: Settings,
                                        ra: Settings, rb: Settings, rab: Settings, rba: Settings)
    requires EditsApart(base, a, b)
    requires Merged(base, a, current, ra) && Merged(base, b, ra, rab)
    requires Merged(base, b, current, rb) && Merged(base, a, rb, rba)
    ensures SameButOrder(rab, rba)
  {
    hide MergeSet, MergedMapping, MergedField, MergedAssociation, MergedValue, Distinct;
    DisplayCommute(base, a, b, current, ra, rb, rab, rba);
    MapsCommute(base.expandedGroups, a.expandedGroups, b.expandedGroups, current.expandedGroups, ra.expandedGroups,
      rb.expandedGroups, rab.expandedGroups, rba.expandedGroups);
    MapsCommute(base.siblingOrder, a.siblingOrder, b.siblingOrder, current.siblingOrder, ra.siblingOrder,
      rb.siblingOrder, rab.siblingOrder, rba.siblingOrder);
    SetsCommute(base.favorites, a.favorites, b.favorites, current.favorites);
  }
}

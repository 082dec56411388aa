/** Reordering rows among their siblings, and saving the order with the keys that may not move in place. */
module OrganizationOrder {
  import opened Lists

  /** A JavaScript number as a distance; rounding is not modelled. */
  datatype Distance = NotFinite | Finite(value: real)

  /** `Math.trunc`: toward zero. */
  function Trunc(x: real): (r: int)
    ensures x >= 0.0 ==> 0.0 <= r as real <= x < r as real + 1.0
    ensures x < 0.0 ==> r as real - 1.0 < x <= r as real <= 0.0
  {
    if x >= 0.0 then x.Floor else -(-x).Floor
  }

  /** The first place of a key, or -1. */
  function IndexOf(keys: seq<string>, key: string): (i: int)
    ensures i == -1 <==> key !in keys
    ensures -1 <= i < |keys|
    ensures i >= 0 ==> keys[i] == key && forall j :: 0 <= j < i ==> keys[j] != key
  {
    if keys == [] then -1
    else if keys[0] == key then 0
    else if key !in keys[1..] then -1
    else 1 + IndexOf(keys[1..], key)
  }

  function RemoveAt(keys: seq<string>, i: nat): seq<string>
    requires i < |keys|
  {
    keys[..i] + keys[i + 1..]
  }

  function InsertAt(keys: seq<string>, i: nat, key: string): seq<string>
    requires i <= |keys|
  {
    keys[..i] + [key] + keys[i..]
  }

  predicate Movable(keys: seq<string>, key: string, distance: Distance) { key in keys && distance.Finite? }

  /** Where the key lands: its place and the distance, cut to the ends of the list. */
  function Target(keys: seq<string>, key: string, distance: Distance): (t: nat)
    requires Movable(keys, key, distance)
    ensures t < |keys|
  {
    var t := IndexOf(keys, key) + Trunc(distance.value);
    if t < 0 then 0 else if t > |keys| - 1 then |keys| - 1 else t
  }

  function Moved(keys: seq<string>, key: string, distance: Distance): (r: seq<string>)
    ensures |r| == |keys|
  {
    if !Movable(keys, key, distance) then keys
    else InsertAt(RemoveAt(keys, IndexOf(keys, key)), Target(keys, key, distance), key)
  }

  method ReorderedSiblings(keys: seq<string>, key: string, distance: Distance) returns (result: seq<string>)
    ensures result == Moved(keys, key, distance)
  {
    hide IndexOf, Trunc;
    var index := IndexOf(keys, key);
    if index < 0 || distance.NotFinite? { return keys; }
    result := keys;
    result := result[..index] + result[index + 1..];
    var wanted := index + Trunc(distance.value);
    var capped := if wanted < |keys| - 1 then wanted else |keys| - 1;
    var at := if capped > 0 then capped else 0;
    result := result[..at] + [key] + result[at..];
  }

  /** The key is at its target and without it the list is what it was without it: the others keep their order. */
  lemma {:induction false} MovedPlaces(keys: seq<string>, key: string, distance: Distance)
    requires Movable(keys, key, distance)
    ensures var r, t := Moved(keys, key, distance), Target(keys, key, distance);
      r[t] == key && RemoveAt(r, t) == RemoveAt(keys, IndexOf(keys, key))
  {
    var rest, t := RemoveAt(keys, IndexOf(keys, key)), Target(keys, key, distance);
    var r := InsertAt(rest, t, key);
    assert r[..t] == rest[..t] && r[t + 1..] == rest[t..];
    assert rest[..t] + rest[t..] == rest;
  }

  lemma {:induction false} RemoveMultiset(keys: seq<string>, i: nat)
    requires i < |keys|
    ensures multiset(RemoveAt(keys, i)) + multiset{keys[i]} == multiset(keys)
  {
    assert keys == keys[..i] + [keys[i]] + keys[i + 1..];
  }

  /** Moving only reorders. */
  lemma {:induction false} MovedPermutes(keys: seq<string>, key: string, distance: Distance)
    ensures multiset(Moved(keys, key, distance)) == multiset(keys)
  {
    if Movable(keys, key, distance) {
      MovedPlaces(keys, key, distance);
      RemoveMultiset(keys, IndexOf(keys, key));
      RemoveMultiset(Moved(keys, key, distance), Target(keys, key, distance));
    }
  }

  lemma {:induction false} SameElements(a: seq<string>, b: seq<string>)
    requires multiset(a) == multiset(b)
    ensures Elements(a) == Elements(b)
  {
    forall k ensures k in a <==> k in b {
      assert k in multiset(a) <==> k in a;
      assert k in multiset(b) <==> k in b;
    }
  }

  lemma {:induction false} DistinctPermutes(a: seq<string>, b: seq<string>)
    requires multiset(a) == multiset(b) && Distinct(a)
    ensures Distinct(b)
  {
    DistinctCounts(a);
    CountsDistinct(b);
  }

  /** The distance that takes the key back where it was. */
  function Back(keys: seq<string>, key: string, distance: Distance): Distance
    requires Movable(keys, key, distance)
  {
    Finite((IndexOf(keys, key) - Target(keys, key, distance)) as real)
  }

  lemma {:induction false} RestoreAt(keys: seq<string>, i: nat)
    requires i < |keys|
    ensures InsertAt(RemoveAt(keys, i), i, keys[i]) == keys
  {
    assert RemoveAt(keys, i)[..i] == keys[..i] && RemoveAt(keys, i)[i..] == keys[i + 1..];
    assert keys[..i] + [keys[i]] + keys[i + 1..] == keys;
  }

  lemma {:induction false} OneIndex(keys: seq<string>, i: nat)
    requires Distinct(keys) && i < |keys|
    ensures IndexOf(keys, keys[i]) == i
  {}

  lemma {:induction false} TargetBack(keys: seq<string>, r: seq<string>, key: string, distance: Distance)
    requires Movable(keys, key, distance) && Movable(r, key, distance) && |r| == |keys|
    requires IndexOf(r, key) == Target(keys, key, distance)
    ensures Target(r, key, Back(keys, key, distance)) == IndexOf(keys, key)
  {
    hide IndexOf;
  }

  /** Moving back by the actual displacement restores the list. */
  lemma {:induction false} MovedBack(keys: seq<string>, key: string, distance: Distance)
    requires Distinct(keys) && Movable(keys, key, distance)
    ensures Moved(Moved(keys, key, distance), key, Back(keys, key, distance)) == keys
  {
    hide InsertAt, RemoveAt, IndexOf, Target, Distinct, Trunc;
    var r, t, i := Moved(keys, key, distance), Target(keys, key, distance), IndexOf(keys, key);
    MovedPlaces(keys, key, distance);
    MovedPermutes(keys, key, distance);
    DistinctPermutes(keys, r);
    OneIndex(r, t);
    TargetBack(keys, r, key, distance);
    RestoreAt(keys, i);
  }

  // ---------------------------------------------------------------- the saved order

  /** The list with its movable slots taken, in order, from another one. */
  function Refill(full: seq<string>, allowed: set<string>, next: seq<string>): (r: seq<string>)
    requires |next| == |Filter(full, allowed)|
    ensures |r| == |full|
  {
    if full == [] then []
    else if full[0] in allowed then [next[0]] + Refill(full[1..], allowed, next[1..])
    else [full[0]] + Refill(full[1..], allowed, next)
  }

  function FullOrder(saved: seq<string>, siblings: seq<string>): seq<string> { Unique(saved + siblings) }

  function Reordered(saved: seq<string>, siblings: seq<string>, movable: seq<string>, key: string,
        distance: Distance): (r: seq<string>)
    ensures |r| == |FullOrder(saved, siblings)|
  {
    var full, allowed := FullOrder(saved, siblings), Elements(movable);
    Refill(full, allowed, Moved(Filter(full, allowed), key, distance))
  }

  lemma {:induction false} RefillStep(full: seq<string>, allowed: set<string>, next: seq<string>, i: nat, index: nat)
    requires i < |full| && index + |Filter(full[i..], allowed)| == |next|
    ensures if full[i] in allowed then
        index < |next| && index + 1 + |Filter(full[i + 1..], allowed)| == |next|
        && Refill(full[i..], allowed, next[index..]) ==
           [next[index]] + Refill(full[i + 1..], allowed, next[index + 1..])
      else
        index + |Filter(full[i + 1..], allowed)| == |next|
        && Refill(full[i..], allowed, next[index..]) == [full[i]] + Refill(full[i + 1..], allowed, next[index..])
  {
    var rest := full[i..];
    assert rest[0] == full[i] && rest[1..] == full[i + 1..];
    if full[i] in allowed { assert next[index..][1..] == next[index + 1..]; }
  }

  method ReorderSavedSiblingOrder(saved: seq<string>, siblings: seq<string>, movable: seq<string>, key: string,
        distance: Distance)
    returns (order: seq<string>)
    ensures order == Reordered(saved, siblings, movable, key, distance)
  {
    hide Moved;
    var full := Unique(saved + siblings);
    var allowed := Elements(movable);
    var next := ReorderedSiblings(Filter(full, allowed), key, distance);
    order := [];
    var index := 0;
    for i := 0 to |full|
      invariant index + |Filter(full[i..], allowed)| == |next|
      invariant order + Refill(full[i..], allowed, next[index..]) == Refill(full, allowed, next)
    {
      RefillStep(full, allowed, next, i, index);
      if full[i] in allowed {
        order := order + [next[index]];
        index := index + 1;
      } else {
        order := order + [full[i]];
      }
    }
  }

  lemma {:induction false} RefillFilter(full: seq<string>, allowed: set<string>, next: seq<string>)
    requires |next| == |Filter(full, allowed)| && Elements(next) <= allowed
    ensures Filter(Refill(full, allowed, next), allowed) == next
    decreases |full|
  {
    if full != [] {
      if full[0] in allowed {
        ElementsHead(next);
        RefillFilter(full[1..], allowed, next[1..]);
        assert Refill(full, allowed, next)[1..] == Refill(full[1..], allowed, next[1..]);
      } else {
        assert |next| == |Filter(full[1..], allowed)|;
        RefillFilter(full[1..], allowed, next);
        assert Refill(full, allowed, next)[1..] == Refill(full[1..], allowed, next);
      }
    }
  }

  lemma {:induction false} RefillFixed(full: seq<string>, allowed: set<string>, next: seq<string>, i: nat)
    requires |next| == |Filter(full, allowed)| && i < |full| && Elements(next) <= allowed
    ensures full[i] !in allowed ==> Refill(full, allowed, next)[i] == full[i]
    decreases |full|
  {
    if full[0] in allowed {
      ElementsHead(next);
      if i > 0 { RefillFixed(full[1..], allowed, next[1..], i - 1); }
    } else if i > 0 {
      RefillFixed(full[1..], allowed, next, i - 1);
    }
  }

  function One(x: string, k: string): nat { if x == k then 1 else 0 }

  lemma {:induction false} ConsCount(x: string, s: seq<string>, k: string)
    ensures multiset([x] + s)[k] == One(x, k) + multiset(s)[k]
  {}

  lemma {:induction false} HeadCount(s: seq<string>, k: string)
    requires s != []
    ensures multiset(s)[k] == One(s[0], k) + multiset(s[1..])[k]
  {
    ConsCount(s[0], s[1..], k);
    assert s == [s[0]] + s[1..];
  }

  lemma {:induction false} RefillCount(full: seq<string>, allowed: set<string>, next: seq<string>, k: string)
    requires |next| == |Filter(full, allowed)|
    ensures multiset(Refill(full, allowed, next))[k] + multiset(Filter(full, allowed))[k] ==
      multiset(full)[k] + multiset(next)[k]
    decreases |full|
  {
    if full != [] {
      var x, rest, slots := full[0], full[1..], Filter(full[1..], allowed);
      HeadCount(full, k);
      if x in allowed {
        HeadCount(next, k);
        RefillCount(rest, allowed, next[1..], k);
        ConsCount(next[0], Refill(rest, allowed, next[1..]), k);
        ConsCount(x, slots, k);
      } else {
        assert [] + slots == slots;
        RefillCount(rest, allowed, next, k);
        ConsCount(x, Refill(rest, allowed, next), k);
      }
    }
  }

  lemma {:induction false} RefillMultiset(full: seq<string>, allowed: set<string>, next: seq<string>)
    requires multiset(next) == multiset(Filter(full, allowed)) && |next| == |Filter(full, allowed)|
    ensures multiset(Refill(full, allowed, next)) == multiset(full)
  {
    hide Refill, Filter;
    forall k ensures multiset(Refill(full, allowed, next))[k] == multiset(full)[k] {
      RefillCount(full, allowed, next, k);
    }
  }

  lemma {:induction false} RefillSame(full: seq<string>, allowed: set<string>)
    ensures Refill(full, allowed, Filter(full, allowed)) == full
    decreases |full|
  {
    if full != [] {
      var rest := Filter(full[1..], allowed);
      RefillSame(full[1..], allowed);
      assert [full[0]] + full[1..] == full;
      if full[0] in allowed { assert ([full[0]] + rest)[1..] == rest; } else { assert [] + rest == rest; }
    }
  }

  lemma {:induction false} RefillTwice(full: seq<string>, allowed: set<string>, next: seq<string>, other: seq<string>)
    requires |next| == |Filter(full, allowed)| == |other| && Elements(next) <= allowed
    ensures |Filter(Refill(full, allowed, next), allowed)| == |other|
    ensures Refill(Refill(full, allowed, next), allowed, other) == Refill(full, allowed, other)
    decreases |full|
  {
    RefillFilter(full, allowed, next);
    if full != [] {
      var r := Refill(full, allowed, next);
      if full[0] in allowed {
        ElementsHead(next);
        RefillTwice(full[1..], allowed, next[1..], other[1..]);
        assert r[1..] == Refill(full[1..], allowed, next[1..]);
      } else {
        assert |next| == |Filter(full[1..], allowed)|;
        RefillTwice(full[1..], allowed, next, other);
        assert r[1..] == Refill(full[1..], allowed, next);
      }
    }
  }

  lemma {:induction false} NextAllowed(full: seq<string>, allowed: set<string>, key: string, distance: Distance)
    ensures var next := Moved(Filter(full, allowed), key, distance);
      Elements(next) <= allowed && multiset(next) == multiset(Filter(full, allowed))
  {
    var slots := Filter(full, allowed);
    MovedPermutes(slots, key, distance);
    SameElements(Moved(slots, key, distance), slots);
    FilterElements(full, allowed);
  }

  /** The result holds exactly the saved and sibling keys, each once. */
  lemma {:induction false} ReorderedPermutes(saved: seq<string>, siblings: seq<string>, movable: seq<string>,
        key: string, distance: Distance)
    ensures var r := Reordered(saved, siblings, movable, key, distance);
      && multiset(r) == multiset(FullOrder(saved, siblings))
      && Distinct(r) && Elements(r) == Elements(saved) + Elements(siblings)
  {
    hide Refill, Filter, Moved, Distinct;
    var full, allowed := FullOrder(saved, siblings), Elements(movable);
    NextAllowed(full, allowed, key, distance);
    RefillMultiset(full, allowed, Moved(Filter(full, allowed), key, distance));
    UnseenFacts({}, saved + siblings);
    DistinctPermutes(full, Reordered(saved, siblings, movable, key, distance));
    SameElements(full, Reordered(saved, siblings, movable, key, distance));
    assert Elements(saved + siblings) == Elements(saved) + Elements(siblings);
  }

  /** A key that may not move keeps its exact slot; the movable slots hold the movable keys, moved among
      themselves. */
  lemma {:induction false} ReorderedSlots(saved: seq<string>, siblings: seq<string>, movable: seq<string>,
        key: string, distance: Distance)
    ensures var full, allowed := FullOrder(saved, siblings), Elements(movable);
      var r := Reordered(saved, siblings, movable, key, distance);
      && (forall i :: 0 <= i < |full| && full[i] !in allowed ==> r[i] == full[i])
      && Filter(r, allowed) == Moved(Filter(full, allowed), key, distance)
  {
    var full, allowed := FullOrder(saved, siblings), Elements(movable);
    var next := Moved(Filter(full, allowed), key, distance);
    NextAllowed(full, allowed, key, distance);
    RefillFilter(full, allowed, next);
    forall i | 0 <= i < |full| && full[i] !in allowed ensures Refill(full, allowed, next)[i] == full[i] {
      RefillFixed(full, allowed, next, i);
    }
  }

  /** Moving the key back by its actual displacement restores the whole order. */
  lemma {:induction false} ReorderedBack(saved: seq<string>, siblings: seq<string>, movable: seq<string>, key: string,
        distance: Distance)
    requires Movable(Filter(FullOrder(saved, siblings), Elements(movable)), key, distance)
    ensures var full, allowed := FullOrder(saved, siblings), Elements(movable);
      var r := Reordered(saved, siblings, movable, key, distance);
      Reordered(r, siblings, movable, key, Back(Filter(full, allowed), key, distance)) == full
  {
    var full, allowed := FullOrder(saved, siblings), Elements(movable);
    var slots := Filter(full, allowed);
    var next := Moved(slots, key, distance);
    var r := Reordered(saved, siblings, movable, key, distance);
    ReorderedPermutes(saved, siblings, movable, key, distance);
    ReorderedSlots(saved, siblings, movable, key, distance);
    UniqueKept(r, siblings);
    UnseenFacts({}, saved + siblings);
    FilterDistinct(full, allowed);
    MovedBack(slots, key, distance);
    NextAllowed(full, allowed, key, distance);
    RefillTwice(full, allowed, next, slots);
    RefillSame(full, allowed);
  }

  /** Nothing moves when the key is not one of the movable ones listed, or the distance is not a number. */
  lemma {:induction false} ReorderedStill(saved: seq<string>, siblings: seq<string>, movable: seq<string>,
        key: string, distance: Distance)
    requires key !in movable || (key !in saved && key !in siblings) || distance.NotFinite?
    ensures Reordered(saved, siblings, movable, key, distance) == FullOrder(saved, siblings)
  {
    var full, allowed := FullOrder(saved, siblings), Elements(movable);
    UnseenFacts({}, saved + siblings);
    FilterElements(full, allowed);
    assert key in Elements(saved + siblings) <==> key in saved || key in siblings;
    assert key in Filter(full, allowed) <==> key in Elements(Filter(full, allowed));
    RefillSame(full, allowed);
  }
}

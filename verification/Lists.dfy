/** Lists of distinct strings, the lists that ECMAScript sets and filters make of them, and sorted lists. */
module Lists {

  function Elements(s: seq<string>): set<string> { set k | k in s }

  predicate Distinct(s: seq<string>) { forall i, j :: 0 <= i < j < |s| ==> s[i] != s[j] }

  lemma {:induction false} CountsDistinct(s: seq<string>)
    requires forall x :: multiset(s)[x] <= 1
    ensures Distinct(s)
    decreases |s|
  {
    if s != [] {
      var x, rest := s[0], s[1..];
      assert s == [x] + rest;
      forall y ensures multiset(rest)[y] <= 1 { assert multiset(s)[y] <= 1; }
      assert multiset(s)[x] <= 1;
      CountsDistinct(rest);
      forall i, j | 0 <= i < j < |s| ensures s[i] != s[j] {
        if i == 0 { assert rest[j - 1] in multiset(rest); } else { assert rest[i - 1] != rest[j - 1]; }
      }
    }
  }

  lemma {:induction false} DistinctCounts(s: seq<string>)
    requires Distinct(s)
    ensures forall x :: multiset(s)[x] <= 1
    decreases |s|
  {
    if s != [] {
      var x, rest := s[0], s[1..];
      assert s == [x] + rest;
      assert forall i :: 0 <= i < |rest| ==> rest[i] == s[i + 1];
      DistinctCounts(rest);
      assert x !in rest;
      assert x !in multiset(rest);
    }
  }

  /** The keys not seen before, in order, each once. */
  function Unseen(seen: set<string>, s: seq<string>): seq<string>
    decreases |s|
  {
    if s == [] then []
    else if s[0] in seen then Unseen(seen, s[1..])
    else [s[0]] + Unseen(seen + {s[0]}, s[1..])
  }

  /** `[...new Set(s)]`: each key once, at its first place. */
  function Unique(s: seq<string>): seq<string> { Unseen({}, s) }

  lemma {:induction false} ElementsHead(s: seq<string>)
    requires s != []
    ensures Elements(s) == {s[0]} + Elements(s[1..])
  {
    assert s == [s[0]] + s[1..];
  }

  lemma {:induction false} ElementsCons(x: string, s: seq<string>)
    ensures Elements([x] + s) == {x} + Elements(s)
  {}

  lemma {:induction false} DistinctCons(x: string, s: seq<string>)
    ensures Distinct([x] + s) <==> x !in s && Distinct(s)
  {
    var all := [x] + s;
    assert forall i :: 0 <= i < |s| ==> all[i + 1] == s[i];
    if Distinct(all) {
      forall i, j | 0 <= i < j < |s| ensures s[i] != s[j] { assert all[i + 1] != all[j + 1]; }
      forall i | 0 <= i < |s| ensures s[i] != x { assert all[0] != all[i + 1]; }
    }
    if x !in s && Distinct(s) {
      forall i, j | 0 <= i < j < |all| ensures all[i] != all[j] {
        assert all[j] == s[j - 1];
        assert i > 0 ==> all[i] == s[i - 1];
      }
    }
  }

  lemma {:induction false} UnseenFacts(seen: set<string>, s: seq<string>)
    ensures Distinct(Unseen(seen, s)) && Elements(Unseen(seen, s)) == Elements(s) - seen
    decreases |s|
  {
    if s != [] {
      ElementsHead(s);
      if s[0] in seen {
        UnseenFacts(seen, s[1..]);
      } else {
        var rest := Unseen(seen + {s[0]}, s[1..]);
        UnseenFacts(seen + {s[0]}, s[1..]);
        ElementsCons(s[0], rest);
        assert s[0] !in Elements(rest);
        DistinctCons(s[0], rest);
      }
    }
  }

  /** Keys already listed once come back as they are, and nothing known is added after them. */
  lemma {:induction false} UnseenKept(seen: set<string>, s: seq<string>, more: seq<string>)
    requires Distinct(s) && Elements(s) !! seen && Elements(more) <= seen + Elements(s)
    ensures Unseen(seen, s + more) == s
    decreases |s| + |more|
  {
    if s == [] {
      assert s + more == more;
      if more != [] {
        ElementsHead(more);
        assert [] + more[1..] == more[1..];
        UnseenKept(seen, [], more[1..]);
      }
    } else {
      ElementsHead(s);
      assert [s[0]] + s[1..] == s;
      DistinctCons(s[0], s[1..]);
      assert (s + more)[1..] == s[1..] + more;
      UnseenKept(seen + {s[0]}, s[1..], more);
    }
  }

  lemma {:induction false} UniqueKept(s: seq<string>, more: seq<string>)
    requires Distinct(s) && Elements(more) <= Elements(s)
    ensures Unique(s + more) == s
  {
    UnseenKept({}, s, more);
  }

  lemma {:induction false} UniqueSame(s: seq<string>)
    ensures Unique(s) == s <==> Distinct(s)
  {
    UnseenFacts({}, s);
    if Distinct(s) {
      UniqueKept(s, []);
      assert s + [] == s;
    }
  }

  /** `s.filter(id => keep.has(id))`. */
  function Filter(s: seq<string>, keep: set<string>): seq<string> {
    if s == [] then [] else (if s[0] in keep then [s[0]] else []) + Filter(s[1..], keep)
  }

  lemma {:induction false} FilterElements(s: seq<string>, keep: set<string>)
    ensures Elements(Filter(s, keep)) == Elements(s) * keep
  {
    if s != [] {
      ElementsHead(s);
      FilterElements(s[1..], keep);
      ElementsCons(s[0], Filter(s[1..], keep));
      assert [] + Filter(s[1..], keep) == Filter(s[1..], keep);
    }
  }

  lemma {:induction false} FilterDistinct(s: seq<string>, keep: set<string>)
    requires Distinct(s)
    ensures Distinct(Filter(s, keep))
  {
    if s != [] {
      assert [s[0]] + s[1..] == s;
      DistinctCons(s[0], s[1..]);
      FilterDistinct(s[1..], keep);
      FilterElements(s[1..], keep);
      assert s[0] in Filter(s[1..], keep) <==> s[0] in Elements(Filter(s[1..], keep));
      assert s[0] in s[1..] <==> s[0] in Elements(s[1..]);
      DistinctCons(s[0], Filter(s[1..], keep));
      assert [] + Filter(s[1..], keep) == Filter(s[1..], keep);
    }
  }

  // ---------------------------------------------------------------- sorting

  predicate Leq(a: string, b: string) {
    a == "" || (b != "" && (a[0] < b[0] || (a[0] == b[0] && Leq(a[1..], b[1..]))))
  }

  lemma LeqTotal(a: string, b: string)
    ensures Leq(a, b) || Leq(b, a)
  {}

  lemma LeqTransitive(a: string, b: string, c: string)
    requires Leq(a, b) && Leq(b, c)
    ensures Leq(a, c)
  {
    if a != "" && a[0] == b[0] && b[0] == c[0] { LeqTransitive(a[1..], b[1..], c[1..]); }
  }

  lemma {:induction false} LeqAntisymmetric(a: string, b: string)
    requires Leq(a, b) && Leq(b, a)
    ensures a == b
    decreases |a|
  {
    if a != "" {
      LeqAntisymmetric(a[1..], b[1..]);
      assert a == [a[0]] + a[1..] && b == [b[0]] + b[1..];
    }
  }

  predicate IsSorted(s: seq<string>) { forall i, j :: 0 <= i < j < |s| ==> Leq(s[i], s[j]) }

  function Insert(x: string, s: seq<string>): (r: seq<string>)
    requires IsSorted(s)
    ensures IsSorted(r) && multiset(r) == multiset(s) + multiset{x}
  {
    if s == [] then [x]
    else if Leq(x, s[0]) then
      (forall i | 0 <= i < |s| ensures Leq(x, s[i]) { if i > 0 { LeqTransitive(x, s[0], s[i]); } }
       [x] + s)
    else
      LeqTotal(x, s[0]);
      var rest := Insert(x, s[1..]);
      assert s == [s[0]] + s[1..];
      (forall i | 0 <= i < |rest| ensures Leq(s[0], rest[i]) {
         assert rest[i] in multiset(rest);
       }
       [s[0]] + rest)
  }

  /** `sorted` of some strings. */
  function Sort(s: seq<string>): (r: seq<string>)
    ensures IsSorted(r) && multiset(r) == multiset(s)
  {
    if s == [] then []
    else
      assert s == [s[0]] + s[1..];
      Insert(s[0], Sort(s[1..]))
  }

  lemma {:induction false} SortFacts(s: seq<string>)
    ensures |Sort(s)| == |s| && (forall x :: x in Sort(s) <==> x in s)
    ensures Distinct(s) ==> Distinct(Sort(s))
  {
    assert |multiset(Sort(s))| == |multiset(s)|;
    forall x ensures x in Sort(s) <==> x in s { assert x in multiset(Sort(s)) <==> x in multiset(s); }
    if Distinct(s) {
      DistinctCounts(s);
      CountsDistinct(Sort(s));
    }
  }
}

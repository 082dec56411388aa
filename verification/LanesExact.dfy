/** What `classify` selects in one call, exactly: the search never continues through a package that only
    plain files selected. */
module LanesExact {
  import opened Closures
  import opened Lists
  import opened TestLanes
  import opened Text

  /** The dependents of the given packages are out of sight. */
  function Cut(g: Graph, u: set<string>): (r: Graph)
    ensures r.Keys == g.Keys && (Total(g) ==> Total(r))
  {
    map x | x in g :: if x in u then {} else g[x]
  }

  /** The packages that a plain file finds not yet found and that no source changes since. */
  ghost function Unsearched(g: Graph, files: seq<Change>): (u: set<string>)
    requires Known(g, files)
    decreases |files|, 0
  {
    if files == [] then {}
    else
      var before, c := files[..|files| - 1], files[|files| - 1];
      ChangedLast(files);
      UnsearchedNext(Found(g, before), Unsearched(g, before), c)
  }

  /** The changed packages, and what the changed sources reach without going on through an unsearched one. */
  ghost function Found(g: Graph, files: seq<Change>): set<string>
    requires Known(g, files)
    decreases |files|, 1
  {
    Changed(files) + Closure(Cut(g, Unsearched(g, files)), Sources(files))
  }

  ghost function UnsearchedNext(found: set<string>, u: set<string>, c: Change): set<string> {
    if c.package.None? then u
    else if IsSource(c.path) then u - {c.package.value}
    else if c.package.value in found then u
    else u + {c.package.value}
  }

  ghost predicate CutInv(g: Graph, selected: set<string>, u: set<string>, changed: set<string>, sources: set<string>) {
    && u <= selected && sources <= changed <= selected && u !! sources
    && (forall x :: x in selected && x !in u && x in g ==> g[x] <= selected)
    && selected <= changed + Closure(Cut(g, u), sources)
  }

  /** The invariant fixes the selection. */
  lemma {:induction false} CutFixes(g: Graph, selected: set<string>, u: set<string>, changed: set<string>,
        sources: set<string>)
    requires Total(g) && sources <= g.Keys && CutInv(g, selected, u, changed, sources)
    ensures selected == changed + Closure(Cut(g, u), sources)
  {
    ClosureLeast(Cut(g, u), sources);
    assert Closed(Cut(g, u), selected);
  }

  /** Hiding the dependents of a package that is not reached changes nothing that is. */
  lemma {:induction false} CutUnreached(g: Graph, u: set<string>, p: string, sources: set<string>)
    requires Total(g) && sources <= g.Keys && p !in Closure(Cut(g, u), sources)
    ensures Closure(Cut(g, u), sources) <= Closure(Cut(g, u + {p}), sources)
  {
    var a, b := Cut(g, u), Cut(g, u + {p});
    var t := Closure(b, sources);
    ClosureLeast(b, sources);
    ReachInside(a, {p}, sources, t);
    forall x | Reach(a, {}, sources, x) ensures x in t { AvoidUnreached(a, sources, p, x); }
  }

  lemma {:induction false} AvoidUnreached(g: Graph, sources: set<string>, p: string, x: string)
    requires Reach(g, {}, sources, x) && p !in Closure(g, sources)
    ensures Reach(g, {p}, sources, x)
  {
    var path :| Path(g, {}, sources, path) && path[|path| - 1] == x;
    forall k | 0 <= k < |path| ensures path[k] != p {
      var part := path[..k + 1];
      assert Path(g, {}, sources, part) && part[|part| - 1] == path[k];
      assert Reach(g, {}, sources, path[k]);
    }
    assert Path(g, {p}, sources, path);
  }

  lemma {:induction false} PlainStep(g: Graph, selected: set<string>, u: set<string>, changed: set<string>,
        sources: set<string>, p: string)
    requires Total(g) && sources <= g.Keys && CutInv(g, selected, u, changed, sources) && p !in selected
    ensures CutInv(g, selected + {p}, u + {p}, changed + {p}, sources)
  {
    CutFixes(g, selected, u, changed, sources);
    CutUnreached(g, u, p, sources);
  }

  lemma {:induction false} FewerCuts(g: Graph, u: set<string>, v: set<string>, sources: set<string>, more: set<string>)
    requires Total(g) && v <= u && sources <= more <= g.Keys
    ensures Closure(Cut(g, u), sources) <= Closure(Cut(g, v), more)
  {
    ClosureLeast(Cut(g, u), sources);
    ClosureLeast(Cut(g, v), more);
    var t := Closure(Cut(g, v), more);
    hide Closure;
    assert Closed(Cut(g, u), t);
  }

  /** What the search from a source finds, around the packages seen, the cut graph reaches too. */
  lemma {:induction false} SourceWithin(g: Graph, one: set<string>, v: set<string>, sources: set<string>, p: string)
    requires Total(g) && p in sources && sources <= g.Keys && p !in v && v <= one
    ensures Grown(g, one, g[p]) <= one + Closure(Cut(g, v), sources)
  {
    var t := Closure(Cut(g, v), sources);
    ClosureLeast(Cut(g, v), sources);
    hide Closure;
    assert g[p] <= t by { assert Cut(g, v)[p] == g[p]; }
    forall x | x in t && x !in one && x in g ensures g[x] <= t { assert Cut(g, v)[x] == g[x]; }
    ReachInside(g, one, g[p], t);
  }

  lemma {:induction false} SourceStep(
      g: Graph, selected: set<string>, u: set<string>, changed: set<string>, sources: set<string>, p: string)
    requires Total(g) && changed <= g.Keys && p in g && CutInv(g, selected, u, changed, sources)
    ensures CutInv(g, Grown(g, selected + {p}, g[p]), u - {p}, changed + {p}, sources + {p})
  {
    var one, v, q := selected + {p}, u - {p}, sources + {p};
    GrownExpanded(g, one, g[p]);
    FewerCuts(g, u, v, sources, q);
    ClosureLeast(Cut(g, v), q);
    SourceWithin(g, one, v, q, p);
    hide Closure, Grown, Cut;
    var grown := Grown(g, one, g[p]);
    forall x | x in grown && x !in v && x in g ensures g[x] <= grown {
      if x in selected && x != p { assert x !in u; }
    }
  }

  lemma {:induction false} CutHolds(g: Graph, files: seq<Change>)
    requires Known(g, files)
    ensures CutInv(g, Selected(g, files), Unsearched(g, files), Changed(files), Sources(files))
    decreases |files|
  {
    if files != [] {
      hide CutInv, IsSource, Grown;
      var before, c := files[..|files| - 1], files[|files| - 1];
      ChangedLast(files);
      CutHolds(g, before);
      CutFixes(g, Selected(g, before), Unsearched(g, before), Changed(before), Sources(before));
      CutNext(g, Selected(g, before), Unsearched(g, before), Changed(before), Sources(before), c);
    } else {
      assert Closure(Cut(g, {}), {}) >= {};
    }
  }

  lemma {:induction false} CutNext(g: Graph, selected: set<string>, u: set<string>, changed: set<string>,
        sources: set<string>, c: Change)
    requires Total(g) && changed <= g.Keys && sources <= g.Keys && CutInv(g, selected, u, changed, sources)
    requires c.package.Some? ==> c.package.value in g
    ensures CutInv(g, SelectMore(g, selected, c), UnsearchedNext(selected, u, c),
                   changed + (if c.package.Some? then {c.package.value} else {}),
                   sources + (if Expands(c) then {c.package.value} else {}))
  {
    hide IsSource, Grown, Closure;
    if c.package.Some? {
      var p := c.package.value;
      if IsSource(c.path) {
        SourceStep(g, selected, u, changed, sources, p);
      } else if p !in selected {
        PlainStep(g, selected, u, changed, sources, p);
        assert sources + {} == sources;
      } else {
        assert selected + {p} == selected && sources + {} == sources;
      }
    } else {
      assert changed + {} == changed && sources + {} == sources;
    }
  }

  /** For every list of files and every graph: the changed packages, and what the changed sources reach
      without going on through an unsearched package. */
  lemma {:induction false} SelectedCut(g: Graph, files: seq<Change>)
    requires Known(g, files)
    ensures Selected(g, files) == Found(g, files)
    ensures Found(g, files) == Changed(files) + Closure(Cut(g, Unsearched(g, files)), Sources(files))
  {
    hide Closure, Selected, Unsearched;
    CutHolds(g, files);
    CutFixes(g, Selected(g, files), Unsearched(g, files), Changed(files), Sources(files));
  }

  /** In one call the selection is what is wanted exactly when every unsearched package that a changed
      source reaches has all its dependents found anyway. Finding out which packages are unsearched follows the list
      file by file; `SettledExactly` has the condition that can be read off the list, for all graphs at once. */
  lemma {:induction false} SelectedExactly(g: Graph, files: seq<Change>)
    requires Known(g, files)
    ensures Selected(g, files) == Wanted(g, files) <==>
      forall b :: b in Unsearched(g, files) && b in Closure(g, Sources(files)) && b in g ==> g[b] <= Found(g, files)
  {
    hide Selected, Unsearched, Found;
    var s, u, all := Selected(g, files), Unsearched(g, files), Closure(g, Sources(files));
    CutHolds(g, files);
    SelectedCut(g, files);
    SelectedWithin(g, files);
    ClosureLeast(g, Sources(files));
    hide Closure;
    if forall b :: b in u && b in all && b in g ==> g[b] <= s {
      assert Closed(g, s * all);
      assert Sources(files) <= s * all;
    }
  }

  // ---------------------------------------------------------------- a list that misses a package

  const NOTE := "b/README.md"
  const CODE := "q/src/lib.rs"
  const ROOTS := [Root("b", ["b"]), Root("c", ["c"]), Root("q", ["q"])]

  /** `b` depends on `q`, and `c` on `b`. */
  const DEPENDENTS: Graph := map["q" := {"b"}, "b" := {"c"}, "c" := {}]

  /** The first component of a path, and the rest. */
  lemma {:induction false} ComponentsHead(part: string, rest: string)
    requires '/' !in part && part != "" && part != "."
    ensures Components(part) == [part]
    ensures Components(part + ['/'] + rest) == [part] + Components(rest)
  {
    hide SplitOn;
    SplitHead(part, '/', rest);
    KeptHead(part, []);
    KeptHead(part, SplitOn(rest, '/'));
    assert [part] + [] == [part];
  }

  lemma {:induction false} KeptHead(part: string, rest: seq<string>)
    requires part != "" && part != "."
    ensures Kept([part] + rest) == [part] + Kept(rest)
  {
    assert ([part] + rest)[1..] == rest;
  }

  lemma {:induction false} NoteParts()
    ensures Components(NOTE) == ["b", "README.md"]
  {
    hide Components;
    ComponentsHead("README.md", "");
    ComponentsHead("b", "README.md");
    assert "b" + ['/'] + "README.md" == NOTE;
  }

  lemma {:induction false} CodeParts()
    ensures Components(CODE) == ["q", "src", "lib.rs"]
  {
    hide Components;
    ComponentsHead("lib.rs", "");
    ComponentsHead("src", "lib.rs");
    ComponentsHead("q", "src/lib.rs");
    assert "q" + ['/'] + "src/lib.rs" == CODE && "src" + ['/'] + "lib.rs" == "src/lib.rs";
  }

  lemma {:induction false} CodeIsSource()
    ensures IsSource(CODE) && !IsSource(NOTE)
  {
    assert CODE[1..][..5] == "/src/";
    assert StartsWith(CODE[1..], "/src/");
    assert NOTE[0] != '/' && NOTE[2] != '/' && NOTE[3] != '/' && NOTE[4] != '/' && NOTE[5] != '/' && NOTE[6] != '/';
    forall i | 0 <= i <= |NOTE| ensures !StartsWith(NOTE[i..], "/src/") {
      if i + 5 <= |NOTE| {
        assert NOTE[i..][..5][0] == NOTE[i] && NOTE[i..][..5][4] == NOTE[i + 4];
        assert i == 1 ==> NOTE[i + 4] != '/';
      }
    }
    assert "Cargo.toml"[9] == 'l' && NOTE[1..][9] == 'd';
  }

  lemma {:induction false} ExampleOwners()
    ensures Resolve([NOTE, CODE], [], ROOTS) == [Change(NOTE, Some("b")), Change(CODE, Some("q"))]
  {
    NoteParts();
    CodeParts();
    hide Components;
    var note, code := ["b", "README.md"], ["q", "src", "lib.rs"];
    assert [] + note == note && [] + code == code;
    OwnerOf(note);
    OwnerOf(code);
    assert NOTE[0] == 'b' && CODE[0] == 'q';
  }

  lemma {:induction false} OwnerOf(parts: seq<string>)
    requires parts != []
    ensures parts[0] == "b" ==> Owner(parts, ROOTS) == Some(ROOTS[0])
    ensures parts[0] == "q" ==> Owner(parts, ROOTS) == Some(ROOTS[2])
  {
    var two, one := ROOTS[..2], ROOTS[..1];
    assert two[..1] == one && one[..0] == [];
    assert forall i :: 0 <= i < 3 ==> (Under(parts, ROOTS[i].dir) <==> parts[0] == ROOTS[i].dir[0]);
    assert Owner(parts, one) == if parts[0] == "b" then Some(ROOTS[0]) else None;
    assert Owner(parts, two) == if parts[0] == "b" then Some(ROOTS[0]) else if parts[0] == "c" then Some(ROOTS[1])
      else None;
  }

  lemma {:induction false} ExampleSets(note: Change, code: Change)
    requires Plain(note) && Expands(code) && note.package == Some("b") && code.package == Some("q")
    ensures Sources([note, code]) == {"q"} && Sources([note]) == {} && Sources([]) == {}
    ensures Changed([note, code]) == {"b", "q"} && Changed([note]) == {"b"}
    ensures !Settled([note, code])
  {
    hide IsSource;
    var files := [note, code];
    assert files[1] == code && files[0] == note && files[..0] == [];
    assert code in files && note in files;
  }

  lemma {:induction false} ExampleSelected(note: Change, code: Change)
    requires Plain(note) && Expands(code) && note.package == Some("b") && code.package == Some("q")
    ensures Known(DEPENDENTS, [note, code]) && Selected(DEPENDENTS, [note, code]) == {"b", "q"}
  {
    ExampleSets(note, code);
    hide IsSource, Settled;
    var files := [note, code];
    assert files[..1] == [note] && [note][..0] == [];
    assert Selected(DEPENDENTS, [note]) == {"b"};
    assert {"b"} + {"q"} == {"b", "q"};
    NothingGrows();
  }

  lemma {:induction false} NothingGrows()
    ensures Grown(DEPENDENTS, {"b", "q"}, {"b"}) == {"b", "q"}
  {
    assert forall x :: !Reach(DEPENDENTS, {"b", "q"}, {"b"}, x);
  }

  lemma {:induction false} ExampleGiven()
    ensures IsSorted([NOTE, CODE]) && Distinct([NOTE, CODE]) && Workspace(DEPENDENTS, ROOTS)
  {
    assert NOTE[0] == 'b' && CODE[0] == 'q';
    assert Leq(NOTE, CODE);
  }

  lemma {:induction false} ExampleReach()
    ensures "c" in Closure(DEPENDENTS, {"q"})
  {
    ReachSeed(DEPENDENTS, {}, {"q"}, "q");
    ReachStep(DEPENDENTS, {}, {"q"}, "q", "b");
    ReachStep(DEPENDENTS, {}, {"q"}, "b", "c");
  }

  /** A sorted list of distinct paths for which the search misses a package: a note in `b`, then code in
      `q`. The dependent `c` of `b` is wanted and not selected. */
  lemma {:induction false} MissedPackage()
    ensures IsSorted([NOTE, CODE]) && Distinct([NOTE, CODE]) && Workspace(DEPENDENTS, ROOTS)
    ensures var files := Resolve([NOTE, CODE], [], ROOTS);
      && Known(DEPENDENTS, files) && !Settled(files)
      && Selected(DEPENDENTS, files) == {"b", "q"} && "c" in Wanted(DEPENDENTS, files)
  {
    hide IsSource, Resolve, Selected, Settled, Closure, IsSorted, Known, Workspace, Changed, Sources;
    ExampleGiven();
    ExampleOwners();
    CodeIsSource();
    var note, code := Change(NOTE, Some("b")), Change(CODE, Some("q"));
    ExampleSets(note, code);
    ExampleSelected(note, code);
    ExampleReach();
  }
}

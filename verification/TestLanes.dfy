/** The test lanes a set of changed files asks for: the packages to test, and what else to run. */
module TestLanes {
  import opened Closures
  import opened Lists
  import opened Text

  /** A changed file, with the workspace package that owns it, if one does. */
  datatype Change = Change(path: string, package: Option<string>)

  /** The lanes of one run; `light` and `heavy` are the packages to test, sorted. */
  datatype Lanes = Lanes(
    light: seq<string>,
    heavy: seq<string>,
    consoleTests: bool,
    verifyApi: bool,
    e2eRequired: bool,
    fullRequired: bool)

  // ---------------------------------------------------------------- the owner of a path

  /** A workspace package and the components of its directory. */
  datatype Root = Root(name: string, dir: seq<string>)

  /** The components of a path: empty ones and single dots are dropped. */
  function Components(path: string): seq<string> { Kept(SplitOn(path, '/')) }

  function Kept(parts: seq<string>): seq<string> {
    if parts == [] then []
    else (if parts[0] == "" || parts[0] == "." then [] else [parts[0]]) + Kept(parts[1..])
  }

  /** `repo / path`: an absolute path stands for itself. */
  function Absolute(repo: seq<string>, path: string): seq<string> {
    if path != "" && path[0] == '/' then Components(path) else repo + Components(path)
  }

  /** Components are those of the parts around each slash; a part alone is one, unless it is empty or a dot. */
  lemma {:induction false} ComponentForms(a: string, b: string, repo: seq<string>)
    ensures Components(a + "/" + b) == Components(a) + Components(b)
    ensures '/' !in a ==> Components(a) == if a == "" || a == "." then [] else [a]
    ensures Absolute(repo, "/" + b) == Components(b)
    ensures a == "" || a[0] != '/' ==> Absolute(repo, a) == repo + Components(a)
  {
    SplitOnAround(a, '/', b);
    assert a + ['/'] + b == a + "/" + b;
    KeptParts(SplitOn(a, '/'), SplitOn(b, '/'));
    if '/' !in a {
      SplitHead(a, '/', "");
      assert [a][1..] == [] && Kept([]) == [];
    }
    SplitHead("", '/', b);
    assert "" + ['/'] + b == "/" + b;
    assert Kept([""] + SplitOn(b, '/')) == [] + Kept(([""] + SplitOn(b, '/'))[1..]);
  }

  lemma {:induction false} KeptParts(a: seq<string>, b: seq<string>)
    ensures Kept(a + b) == Kept(a) + Kept(b)
    decreases |a|
  {
    if a == [] {
      assert a + b == b;
    } else {
      assert (a + b)[1..] == a[1..] + b;
      KeptParts(a[1..], b);
    }
  }

  predicate Under(parts: seq<string>, dir: seq<string>) { dir <= parts }

  /** The first of the deepest roots that hold the path. */
  function Owner(parts: seq<string>, roots: seq<Root>): Option<Root> {
    if roots == [] then None
    else
      var best, root := Owner(parts, roots[..|roots| - 1]), roots[|roots| - 1];
      if Under(parts, root.dir) && (best.None? || |root.dir| > |best.value.dir|) then Some(root) else best
  }

  function OwnerName(repo: seq<string>, roots: seq<Root>, path: string): Option<string> {
    var best := Owner(Absolute(repo, path), roots);
    if best.Some? then Some(best.value.name) else None
  }

  method PackageOf(path: string, repo: seq<string>, roots: seq<Root>) returns (name: Option<string>)
    ensures name == OwnerName(repo, roots, path)
  {
    var absolute := Absolute(repo, path);
    var best: Option<Root> := None;
    for i := 0 to |roots|
      invariant best == Owner(absolute, roots[..i])
    {
      assert roots[..i + 1][..i] == roots[..i];
      if Under(absolute, roots[i].dir) && (best.None? || |roots[i].dir| > |best.value.dir|) { best := Some(roots[i]); }
    }
    assert roots[..|roots|] == roots;
    name := if best.Some? then Some(best.value.name) else None;
  }

  /** A path has no owner exactly when no root holds it; else its owner is a deepest root that does, and
      the first listed of those. */
  lemma {:induction false} OwnerDeepest(parts: seq<string>, roots: seq<Root>)
    ensures Owner(parts, roots).None? <==> forall i :: 0 <= i < |roots| ==> !Under(parts, roots[i].dir)
    ensures Owner(parts, roots).Some? ==>
      exists i :: 0 <= i < |roots| && roots[i] == Owner(parts, roots).value && FirstDeepest(parts, roots, i)
    decreases |roots|
  {
    if roots != [] {
      var before, last := roots[..|roots| - 1], |roots| - 1;
      OwnerDeepest(parts, before);
      assert forall i :: 0 <= i < last ==> before[i] == roots[i];
      if Owner(parts, roots) == Some(roots[last]) && Owner(parts, roots) != Owner(parts, before) {
        assert FirstDeepest(parts, roots, last);
      } else if Owner(parts, before).Some? {
        var i :| 0 <= i < |before| && before[i] == Owner(parts, before).value && FirstDeepest(parts, before, i);
        assert FirstDeepest(parts, roots, i);
      }
    }
  }

  predicate FirstDeepest(parts: seq<string>, roots: seq<Root>, i: nat)
    requires i < |roots|
  {
    && Under(parts, roots[i].dir)
    && (forall j :: 0 <= j < |roots| && Under(parts, roots[j].dir) ==> |roots[j].dir| <= |roots[i].dir|)
    && (forall j :: 0 <= j < i && Under(parts, roots[j].dir) ==> |roots[j].dir| < |roots[i].dir|)
  }

  /** The changed files with their owners. */
  function Resolve(paths: seq<string>, repo: seq<string>, roots: seq<Root>): (files: seq<Change>)
    ensures |files| == |paths|
    ensures forall i :: 0 <= i < |paths| ==> files[i] == Change(paths[i], OwnerName(repo, roots, paths[i]))
  {
    seq(|paths|, i requires 0 <= i < |paths| => Change(paths[i], OwnerName(repo, roots, paths[i])))
  }

  // ---------------------------------------------------------------- what a path asks for

  predicate Contains(s: string, part: string) { exists i :: 0 <= i <= |s| && StartsWith(s[i..], part) }

  predicate EndsWith(s: string, suffix: string) { |suffix| <= |s| && s[|s| - |suffix|..] == suffix }

  /** A source or manifest file: its dependents are selected too. */
  predicate IsSource(path: string) { Contains(path, "/src/") || EndsWith(path, "Cargo.toml") }

  predicate AppSource(path: string) {
    StartsWith(path, "apps/console/src/") || StartsWith(path, "apps/desktop/src-tauri/src/")
  }

  predicate ApiPath(path: string) {
    StartsWith(path, "crates/kontor-api/contract/") || StartsWith(path, "crates/kontor-api/src/")
  }

  predicate RootPath(path: string) {
    path == "Cargo.toml" || path == "Cargo.lock" || path == "rust-toolchain.toml" || StartsWith(path, "scripts/")
  }

  predicate Around(path: string, before: string, part: string, after: string) { path == before + part + after }

  /** Which paths are sources or manifests, and which ask for the lanes of the console, the interface and the root. */
  lemma {:induction false} PathForms(path: string)
    ensures IsSource(path) <==>
            (exists before, after :: Around(path, before, "/src/", after)) ||
            (exists before :: path == before + "Cargo.toml")
    ensures AppSource(path) <==> (exists rest :: path == "apps/console/src/" + rest) ||
                                 (exists rest :: path == "apps/desktop/src-tauri/src/" + rest)
    ensures ApiPath(path) <==> (exists rest :: path == "crates/kontor-api/contract/" + rest) ||
                               (exists rest :: path == "crates/kontor-api/src/" + rest)
    ensures RootPath(path) <==> path in {"Cargo.toml", "Cargo.lock", "rust-toolchain.toml"} ||
                                (exists rest :: path == "scripts/" + rest)
  {
    PartForm(path, "/src/");
    EndForm(path, "Cargo.toml");
    StartForm(path, "apps/console/src/");
    StartForm(path, "apps/desktop/src-tauri/src/");
    StartForm(path, "crates/kontor-api/contract/");
    StartForm(path, "crates/kontor-api/src/");
    StartForm(path, "scripts/");
    hide StartsWith, Contains, EndsWith, Around;
  }

  lemma {:induction false} PartForm(s: string, part: string)
    ensures Contains(s, part) <==> exists before, after :: Around(s, before, part, after)
  {
    if i :| 0 <= i <= |s| && StartsWith(s[i..], part) {
      assert s[i..] == part + s[i..][|part|..];
      assert s == s[..i] + part + s[i..][|part|..];
      assert Around(s, s[..i], part, s[i..][|part|..]);
    }
    if before, after :| Around(s, before, part, after) {
      assert s[|before|..] == part + after && (part + after)[..|part|] == part;
    }
  }

  lemma {:induction false} EndForm(s: string, suffix: string)
    ensures EndsWith(s, suffix) <==> exists before :: s == before + suffix
  {
    if EndsWith(s, suffix) { assert s == s[..|s| - |suffix|] + suffix; }
    if before :| s == before + suffix { assert s[|s| - |suffix|..] == suffix; }
  }

  predicate Expands(c: Change) { c.package.Some? && IsSource(c.path) }

  predicate Plain(c: Change) { c.package.Some? && !IsSource(c.path) }

  function Changed(files: seq<Change>): set<string> { set c | c in files && c.package.Some? :: c.package.value }

  function Sources(files: seq<Change>): set<string> { set c | c in files && Expands(c) :: c.package.value }

  /** The graph of dependents knows every changed package. */
  predicate Known(g: Graph, files: seq<Change>) { Total(g) && Changed(files) <= g.Keys }

  /** The packages selected after one more file: its package, and the dependents its search finds. */
  ghost function SelectMore(g: Graph, selected: set<string>, c: Change): set<string>
    requires c.package.Some? ==> c.package.value in g
  {
    if c.package.None? then selected
    else
      var one := selected + {c.package.value};
      if IsSource(c.path) then Grown(g, one, g[c.package.value]) else one
  }

  ghost function Selected(g: Graph, files: seq<Change>): set<string>
    requires Known(g, files)
    decreases |files|
  {
    if files == [] then {}
    else
      ChangedLast(files);
      SelectMore(g, Selected(g, files[..|files| - 1]), files[|files| - 1])
  }

  lemma {:induction false} ChangedLast(files: seq<Change>)
    requires files != []
    ensures var before, c := files[..|files| - 1], files[|files| - 1];
      && Changed(files) == Changed(before) + (if c.package.Some? then {c.package.value} else {})
      && Sources(files) == Sources(before) + (if Expands(c) then {c.package.value} else {})
  {
    var before, c := files[..|files| - 1], files[|files| - 1];
    assert files == before + [c];
    assert forall x :: x in files <==> x in before || x == c;
  }

  method Expand(g: Graph, seen: set<string>, package: string) returns (selected: set<string>)
    requires Total(g) && package in g
    ensures selected == Grown(g, seen, g[package])
  {
    hide Reach, Grown;
    selected := seen;
    var stack := ListOf(g[package]);
    GrowingStart(g, seen, g[package], stack);
    while stack != []
      invariant Growing(g, seen, g[package], selected, stack)
      decreases |g.Keys - selected|, |stack|
    {
      var dependent, rest := stack[|stack| - 1], stack[..|stack| - 1];
      assert stack == rest + [dependent];
      assert dependent in stack;
      hide Growing;
      stack := rest;
      if dependent !in selected {
        var more := ListOf(g[dependent]);
        GrowingStep(g, seen, g[package], selected, rest, dependent, more);
        Shrinks(g, selected, dependent);
        selected := selected + {dependent};
        stack := stack + more;
      } else {
      }
    }
    GrowingDone(g, seen, g[package], selected);
  }

  lemma {:induction false} GrowingStart(g: Graph, seen: set<string>, seeds: set<string>, stack: seq<string>)
    requires seeds <= g.Keys && forall x :: x in stack <==> x in seeds
    ensures Growing(g, seen, seeds, seen, stack)
  {
    hide Reach;
    forall x | x in stack && x !in seen ensures Reach(g, seen, seeds, x) { ReachSeed(g, seen, seeds, x); }
  }

  predicate AnyChange(files: seq<Change>, p: Change -> bool) { exists i :: 0 <= i < |files| && p(files[i]) }

  predicate AppChange(c: Change) { c.package.None? && AppSource(c.path) }

  predicate ApiChange(c: Change) { ApiPath(c.path) }

  predicate RootChange(c: Change) { RootPath(c.path) }

  /** The packages given, sorted and each once. */
  predicate Listing(list: seq<string>, packages: set<string>) {
    IsSorted(list) && Distinct(list) && Elements(list) == packages
  }

  method SortedSet(packages: set<string>) returns (list: seq<string>)
    ensures Listing(list, packages)
  {
    var any := ListOf(packages);
    SortFacts(any);
    list := Sort(any);
  }

  /** Every package named by a root is a node of the graph. */
  predicate Workspace(g: Graph, roots: seq<Root>) {
    Total(g) && forall i :: 0 <= i < |roots| ==> roots[i].name in g
  }

  lemma {:induction false} OwnerKnown(g: Graph, repo: seq<string>, roots: seq<Root>, path: string)
    requires Workspace(g, roots) && OwnerName(repo, roots, path).Some?
    ensures OwnerName(repo, roots, path).value in g
  {
    OwnerDeepest(Absolute(repo, path), roots);
  }

  lemma {:induction false} ResolvedKnown(g: Graph, paths: seq<string>, repo: seq<string>, roots: seq<Root>)
    requires Workspace(g, roots)
    ensures Known(g, Resolve(paths, repo, roots))
  {
    hide OwnerName;
    forall i | 0 <= i < |paths| && OwnerName(repo, roots, paths[i]).Some?
      ensures OwnerName(repo, roots, paths[i]).value in g
    {
      OwnerKnown(g, repo, roots, paths[i]);
    }
  }

  method Classify(paths: seq<string>, repo: seq<string>, roots: seq<Root>, reverse: Graph, heavy: set<string>)
    returns (lanes: Lanes)
    requires Workspace(reverse, roots)
    ensures Known(reverse, Resolve(paths, repo, roots))
    ensures var files := Resolve(paths, repo, roots);
      var selected := Selected(reverse, files);
      && Listing(lanes.light, selected - heavy) && Listing(lanes.heavy, selected * heavy)
      && (lanes.consoleTests <==> AnyChange(files, AppChange) || AnyChange(files, ApiChange))
      && (lanes.verifyApi <==> AnyChange(files, ApiChange))
      && (lanes.e2eRequired <==> AnyChange(files, AppChange) || "kontor-tests-e2e" in selected)
      && (lanes.fullRequired <==> AnyChange(files, RootChange))
  {
    hide Grown, IsSource, AppSource, ApiPath, RootPath, OwnerName, Listing;
    ghost var files := Resolve(paths, repo, roots);
    ResolvedKnown(reverse, paths, repo, roots);
    var selected: set<string> := {};
    var consoleTests, verifyApi, e2eRequired, fullRequired := false, false, false, false;
    for i := 0 to |paths|
      invariant KnownPrefix(reverse, files, i)
      invariant selected == Selected(reverse, files[..i])
      invariant consoleTests <==> AnyChange(files[..i], AppChange) || AnyChange(files[..i], ApiChange)
      invariant verifyApi <==> AnyChange(files[..i], ApiChange)
      invariant e2eRequired <==> AnyChange(files[..i], AppChange)
      invariant fullRequired <==> AnyChange(files[..i], RootChange)
    {
      var path := paths[i];
      var package := PackageOf(path, repo, roots);
      ghost var now := files[..i + 1];
      assert now[..|now| - 1] == files[..i] && now[|now| - 1] == Change(path, package);
      AnyLast(now, AppChange);
      AnyLast(now, ApiChange);
      AnyLast(now, RootChange);
      PrefixKnown(reverse, files, i + 1);
      if package.Some? {
        ChangedLast(now);
        selected := selected + {package.value};
        if IsSource(path) { selected := Expand(reverse, selected, package.value); }
      } else if AppSource(path) {
        consoleTests := true;
        e2eRequired := true;
      }
      if ApiPath(path) {
        verifyApi := true;
        consoleTests := true;
      }
      if RootPath(path) { fullRequired := true; }
    }
    assert files[..|files|] == files;
    var light := SortedSet(selected - heavy);
    var slow := SortedSet(selected * heavy);
    if "kontor-tests-e2e" in selected { e2eRequired := true; }
    lanes := Lanes(light, slow, consoleTests, verifyApi, e2eRequired, fullRequired);
  }

  predicate KnownPrefix(g: Graph, files: seq<Change>, i: int) { 0 <= i <= |files| && Known(g, files[..i]) }

  lemma {:induction false} PrefixKnown(g: Graph, files: seq<Change>, i: nat)
    requires Known(g, files) && i <= |files|
    ensures Known(g, files[..i])
  {
    assert forall c :: c in files[..i] ==> c in files;
  }

  lemma {:induction false} AnyLast(files: seq<Change>, p: Change -> bool)
    requires files != []
    ensures AnyChange(files, p) <==> AnyChange(files[..|files| - 1], p) || p(files[|files| - 1])
  {
    var before := files[..|files| - 1];
    if i :| 0 <= i < |before| && p(before[i]) { assert p(files[i]); }
    if i :| 0 <= i < |files| && p(files[i]) { assert i < |before| ==> p(before[i]); }
  }

  // ---------------------------------------------------------------- what is selected

  /** What the lanes should test: the changed packages, and everything that depends on a package with a
      changed source. */
  ghost function Wanted(g: Graph, files: seq<Change>): set<string> { Changed(files) + Closure(g, Sources(files)) }

  /** Once a package is changed by plain files only, no package gets its first changed source. */
  ghost predicate Settled(files: seq<Change>) {
    forall i :: 0 <= i < |files| && Plain(files[i]) && files[i].package.value !in Sources(files) ==>
      Sources(files) <= Sources(files[..i])
  }

  /** Nothing is selected that should not be, and every changed package is. */
  lemma {:induction false} SelectedWithin(g: Graph, files: seq<Change>)
    requires Known(g, files)
    ensures Changed(files) <= Selected(g, files) <= Wanted(g, files)
    decreases |files|
  {
    if files != [] {
      var before, c := files[..|files| - 1], files[|files| - 1];
      ChangedLast(files);
      SelectedWithin(g, before);
      WithinStep(g, Selected(g, before), c, Changed(before), Sources(before), Sources(files));
    }
  }

  lemma {:induction false} WithinStep(g: Graph, selected: set<string>, c: Change, changed: set<string>,
        before: set<string>, sources: set<string>)
    requires Total(g) && sources <= g.Keys && (c.package.Some? ==> c.package.value in g)
    requires changed <= selected <= changed + Closure(g, before)
    requires sources == before + (if Expands(c) then {c.package.value} else {})
    ensures var more := changed + (if c.package.Some? then {c.package.value} else {});
      more <= SelectMore(g, selected, c) <= more + Closure(g, sources)
  {
    ClosureLeast(g, sources);
    ClosureLeast(g, before);
    var t := Closure(g, sources);
    hide Closure, IsSource, Reach;
    if Expands(c) {
      var one := selected + {c.package.value};
      GrownInside(g, one, g[c.package.value], t);
    }
  }

  /** Every selected package has its dependents selected, but for those whose source comes later. */
  ghost predicate Pending(g: Graph, selected: set<string>, later: set<string>) {
    forall x :: x in selected && x in g && x !in later ==> g[x] <= selected
  }

  /** After some files: all that is wanted in the end is there, or only sources to come are missing. */
  ghost predicate OnCourse(g: Graph, files: seq<Change>, n: nat)
    requires Known(g, files) && n <= |files| && Known(g, files[..n])
  {
    || Pending(g, Selected(g, files[..n]), Sources(files) - Sources(files[..n]))
    || Closure(g, Sources(files)) <= Selected(g, files[..n])
  }

  lemma {:induction false} CourseStep(g: Graph, files: seq<Change>, n: nat)
    requires Known(g, files) && Settled(files) && n < |files| && Known(g, files[..n]) && OnCourse(g, files, n)
    requires Known(g, files[..n + 1])
    ensures OnCourse(g, files, n + 1)
  {
    hide IsSource;
    var before, now, c := files[..n], files[..n + 1], files[n];
    assert now[..|now| - 1] == before && now[|now| - 1] == c;
    ChangedLast(now);
    var s := Selected(g, before);
    var all := Sources(files);
    if Closure(g, all) <= s || c.package.None? {
    } else if IsSource(c.path) {
      var one := s + {c.package.value};
      GrownExpanded(g, one, g[c.package.value]);
      hide Grown;
    } else if c.package.value in all {
      SelectedWithin(g, before);
    } else {
      CourseEnds(g, files, n);
    }
  }

  /** When no source is to come, the closure of the sources is selected. */
  lemma {:induction false} CourseEnds(g: Graph, files: seq<Change>, n: nat)
    requires Known(g, files) && n <= |files| && Known(g, files[..n])
    requires Pending(g, Selected(g, files[..n]), Sources(files) - Sources(files[..n])) &&
      Sources(files) <= Sources(files[..n])
    ensures Closure(g, Sources(files)) <= Selected(g, files[..n])
  {
    hide Closure;
    SelectedWithin(g, files[..n]);
    ClosureLeast(g, Sources(files));
    assert Closed(g, Selected(g, files[..n]));
  }

  lemma {:induction false} CourseHolds(g: Graph, files: seq<Change>, n: nat)
    requires Known(g, files) && Settled(files) && n <= |files|
    ensures Known(g, files[..n]) && OnCourse(g, files, n)
    decreases n
  {
    if n > 0 {
      CourseHolds(g, files, n - 1);
      CourseStep(g, files, n - 1);
    }
  }

  /** Settled files select exactly what is wanted, whatever the dependencies are. */
  lemma {:induction false} SettledSelects(g: Graph, files: seq<Change>)
    requires Known(g, files) && Settled(files)
    ensures Selected(g, files) == Wanted(g, files)
  {
    CourseHolds(g, files, |files|);
    assert files[..|files|] == files;
    SelectedWithin(g, files);
    if Pending(g, Selected(g, files), {}) { CourseEnds(g, files, |files|); }
  }

  /** When each package file is a source or a manifest, the selection is the least set with the changed
      packages that is closed under dependents: the order of the files does not matter. */
  lemma {:induction false} SourcesSelect(g: Graph, files: seq<Change>)
    requires Known(g, files) && forall c :: c in files && c.package.Some? ==> IsSource(c.path)
    ensures Selected(g, files) == Closure(g, Changed(files))
    ensures Changed(files) <= Selected(g, files) && Closed(g, Selected(g, files))
    ensures forall t :: Changed(files) <= t && Closed(g, t) ==> Selected(g, files) <= t
  {
    hide IsSource;
    assert Sources(files) == Changed(files);
    assert Settled(files) by { assert forall i :: 0 <= i < |files| ==> files[i] in files; }
    SettledSelects(g, files);
    ClosureLeast(g, Changed(files));
  }

  // ---------------------------------------------------------------- unsettled files

  /** A name longer than every changed package's. */
  function Fresh(files: seq<Change>): (name: string)
    ensures name !in Changed(files) && forall c :: c in files && c.package.Some? ==> |c.package.value| < |name|
  {
    if files == [] then "x"
    else
      var rest := Fresh(files[1..]);
      assert files == [files[0]] + files[1..];
      if files[0].package.Some? then rest + files[0].package.value + "x" else rest
  }

  /** Package `q` has the dependent `b`, which has the dependent `c`. */
  function Chain(files: seq<Change>, q: string, b: string, c: string): Graph {
    map x | x in Changed(files) + {c} :: if x == q then {b} else if x == b then {c} else {}
  }

  lemma {:induction false} ChainMisses(files: seq<Change>, i: nat, q: string, c: string, n: nat)
    requires i < |files| && Plain(files[i]) && files[i].package.value !in Sources(files)
    requires q in Sources(files) && q !in Sources(files[..i]) && c !in Changed(files) && n <= |files|
    ensures var b := files[i].package.value; var g := Chain(files, q, b, c);
      && Known(g, files) && Known(g, files[..n])
      && c !in Selected(g, files[..n]) && (n > i ==> b in Selected(g, files[..n]))
    decreases n
  {
    hide IsSource;
    var b := files[i].package.value;
    var g := Chain(files, q, b, c);
    assert files[i] in files;
    if n > 0 {
      var now, f := files[..n], files[n - 1];
      ChainMisses(files, i, q, c, n - 1);
      assert now[..|now| - 1] == files[..n - 1] && now[|now| - 1] == f && f in files;
      if Expands(f) {
        var p := f.package.value;
        assert p in Sources(files);
        if n <= i {
          assert f in files[..i];
          assert p in Sources(files[..i]);
        }
      }
    }
  }

  lemma {:induction false} ChainWants(files: seq<Change>, i: nat, q: string, c: string)
    requires i < |files| && Plain(files[i]) && files[i].package.value !in Sources(files) && q in Sources(files) &&
      c !in Changed(files)
    ensures c in Closure(Chain(files, q, files[i].package.value, c), Sources(files))
  {
    hide IsSource;
    var b := files[i].package.value;
    var g := Chain(files, q, b, c);
    assert files[i] in files;
    ReachSeed(g, {}, Sources(files), q);
    ReachStep(g, {}, Sources(files), q, b);
    ReachStep(g, {}, Sources(files), b, c);
  }

  /** Files that are not settled miss a wanted package for some dependencies. */
  lemma {:induction false} UnsettledMisses(files: seq<Change>) returns (g: Graph)
    requires !Settled(files)
    ensures Known(g, files) && Selected(g, files) != Wanted(g, files)
  {
    hide IsSource, Selected, Closure, Chain;
    var i :| 0 <= i < |files| && Plain(files[i]) && files[i].package.value !in Sources(files) &&
      !(Sources(files) <= Sources(files[..i]));
    var q :| q in Sources(files) && q !in Sources(files[..i]);
    var b, c := files[i].package.value, Fresh(files);
    g := Chain(files, q, b, c);
    ChainMisses(files, i, q, c, |files|);
    assert files[..|files|] == files;
    ChainWants(files, i, q, c);
  }

  /** The selection is right for all dependencies exactly when the files are settled. */
  lemma {:induction false} SettledExactly(files: seq<Change>)
    ensures Settled(files) <==> forall g: Graph :: Known(g, files) ==> Selected(g, files) == Wanted(g, files)
  {
    if Settled(files) {
      forall g: Graph | Known(g, files) ensures Selected(g, files) == Wanted(g, files) { SettledSelects(g, files); }
    } else {
      var g := UnsettledMisses(files);
      assert Known(g, files) && Selected(g, files) != Wanted(g, files);
    }
  }
}

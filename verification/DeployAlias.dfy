/** Why installed links must avoid the other installed names: the states of a deploy in which one name is a
    link to another, operation by operation, and when the linked name reads neither its old bytes nor its
    candidate. */
module DeployAlias {
  import opened Text
  import opened Files
  import opened Deploy

  // ---------------------------------------------------------------- what the script does, as operations

  /** One copy: what lies there while it is under way, and the mode of its source. */
  datatype Copy = Copy(cut: Image, mode: nat)

  datatype Copies = Copies(install: Binary -> Copy, restore: Binary -> Copy)

  function PlaceOps(target: Path, image: Image, copy: Copy): seq<FileOp> {
    var staging := StagingPath(target);
    [Write(staging, copy.cut, copy.mode), Write(staging, image, copy.mode), Chmod(staging, EXECUTABLE),
      Rename(staging, target)]
  }

  function SwingOps(fs: FS, b: Binary, target: Path): seq<FileOp> {
    var staging := LinkStagingPath(b);
    (if staging in fs then [Unlink(staging)] else []) + [Symlink(staging, target), Rename(staging, InstallPath(b))]
  }

  function InstallOps(d: Plan, fs: FS, b: Binary, copy: Copy): (ops: seq<FileOp>)
    ensures ops != []
  {
    if InstallPath(b) in fs && fs[InstallPath(b)].Link? then
      PlaceOps(d.GenerationPath(b), d.candidate(b), copy) + SwingOps(fs, b, d.GenerationPath(b))
    else PlaceOps(InstallPath(b), d.candidate(b), copy)
  }

  function RestoreOps(d: Plan, fs: FS, b: Binary, copy: Copy): (ops: seq<FileOp>)
    requires Named(d)
    ensures ops != []
  {
    if d.before[InstallPath(b)].Link? then SwingOps(fs, b, d.before[InstallPath(b)].target)
    else PlaceOps(InstallPath(b), d.before[InstallPath(b)].image, copy)
  }

  /** The state after the first `n` operations. */
  function After(fs: FS, ops: seq<FileOp>, n: nat): Option<FS>
    requires n <= |ops|
  {
    if n == 0 then Some(fs)
    else
      match After(fs, ops, n - 1)
      case None => None
      case Some(s) => Apply(s, ops[n - 1])
  }

  predicate Named(d: Plan) { forall b :: InstallPath(b) in d.before }

  /** A layout in which installed names may lead to one another, through any links, but to no staging name and no
      backup. A generation that is already there holds the image its name says. */
  ghost predicate Usual(d: Plan) {
    && Named(d) && d.Present() && d.StagingFiles(d.before)
    && (forall b :: Avoids(d.before, InstallPath(b), d.Scratch, MAX_HOPS))
    && (forall b :: d.GenerationPath(b) in d.before ==>
          d.before[d.GenerationPath(b)].File? && d.before[d.GenerationPath(b)].image == d.candidate(b))
  }

  // ---------------------------------------------------------------- one placing, one swing

  lemma {:induction false} AfterConcat(fs: FS, a: seq<FileOp>, b: seq<FileOp>, n: nat)
    requires n <= |a + b| && After(fs, a, |a|).Some?
    ensures After(fs, a + b, n) ==
            if n <= |a| then After(fs, a, n) else After(After(fs, a, |a|).value, b, n - |a|)
    decreases n
  {
    if n > 0 { AfterConcat(fs, a, b, n - 1); }
  }

  lemma {:induction false} PlaceAfter(fs: FS, target: Path, image: Image, copy: Copy, n: nat)
    requires target.dir == InstallDir && !target.leaf.Staging? && n <= 4
    requires StagingPath(target) in fs ==> fs[StagingPath(target)].File?
    ensures |PlaceOps(target, image, copy)| == 4
    ensures var s := After(fs, PlaceOps(target, image, copy), n);
      s.Some? &&
      if n == 4 then s.value == (fs - {StagingPath(target)})[target := File(image, EXECUTABLE)]
      else SameBut(fs, s.value, {StagingPath(target)}) &&
           (StagingPath(target) in s.value ==> s.value[StagingPath(target)].File?)
  {
    var ops, staging := PlaceOps(target, image, copy), StagingPath(target);
    assert After(fs, ops, 0) == Some(fs);
    var s1 := fs[staging := File(copy.cut, copy.mode)];
    assert After(fs, ops, 1) == Some(s1);
    var s2 := fs[staging := File(image, copy.mode)];
    assert s1[staging := File(image, copy.mode)] == s2;
    assert After(fs, ops, 2) == Some(s2);
    var s3 := fs[staging := File(image, EXECUTABLE)];
    assert s2[staging := File(image, EXECUTABLE)] == s3;
    assert After(fs, ops, 3) == Some(s3);
    assert s3 - {staging} == fs - {staging};
    assert After(fs, ops, 4) == Some((fs - {staging})[target := File(image, EXECUTABLE)]);
  }

  lemma {:induction false} SwingAfter(fs: FS, b: Binary, target: Path, n: nat)
    requires n <= |SwingOps(fs, b, target)|
    ensures var s := After(fs, SwingOps(fs, b, target), n);
      s.Some? &&
      if n == |SwingOps(fs, b, target)| then s.value == (fs - {LinkStagingPath(b)})[InstallPath(b) := Link(target)]
      else SameBut(fs, s.value, {LinkStagingPath(b)})
  {
    var ops, staging := SwingOps(fs, b, target), LinkStagingPath(b);
    var bare := fs - {staging};
    var linked := bare[staging := Link(target)];
    assert After(fs, ops, 0) == Some(fs);
    var k := if staging in fs then 1 else 0;
    assert staging !in fs ==> bare == fs;
    assert After(fs, ops, k) == Some(bare);
    assert After(fs, ops, k + 1) == Some(linked);
    assert linked - {staging} == bare;
    assert After(fs, ops, k + 2) == Some(bare[InstallPath(b) := Link(target)]);
  }

  // ---------------------------------------------------------------- how far a run has come

  function Index(b: Binary): (i: nat)
    ensures i < |BINARIES| && BINARIES[i] == b
  {
    match b case Daemon => 0 case Kontor => 1 case Mcp => 2
  }

  function InstalledEntry(d: Plan, b: Binary): FileEntry
    requires Named(d)
  {
    if d.before[InstallPath(b)].Link? then Link(d.GenerationPath(b)) else d.Fresh(b)
  }

  function RestoredEntry(d: Plan, b: Binary): FileEntry
    requires Named(d)
  {
    match d.before[InstallPath(b)] case Link(t) => Link(t) case File(image, _) => File(image, EXECUTABLE)
  }

  /** What the name holds once `k` binaries are installed and then `j` restored, in the order of the script. */
  function EntryAt(d: Plan, b: Binary, k: nat, j: nat): FileEntry
    requires Named(d)
  {
    if Index(b) < j then RestoredEntry(d, b)
    else if Index(b) < k then InstalledEntry(d, b)
    else d.before[InstallPath(b)]
  }

  ghost predicate HoldsName(d: Plan, fs: FS, b: Binary, k: nat, j: nat)
    requires Named(d)
  {
    && InstallPath(b) in fs && fs[InstallPath(b)] == EntryAt(d, b, k, j)
    && (Index(b) < k && d.before[InstallPath(b)].Link? ==>
          d.GenerationPath(b) in fs && fs[d.GenerationPath(b)] == d.Fresh(b))
  }

  ghost predicate Holds(d: Plan, fs: FS, k: nat, j: nat)
    requires Named(d)
  {
    && d.StagingFiles(fs) && (forall b :: HoldsName(d, fs, b, k, j) && d.GenerationSane(fs, b))
    && forall p :: !Volatile(p) && !d.IsGeneration(p) ==> d.SameAt(fs, p)
  }

  /** What the first `n` operations of one installation change. */
  ghost predicate InstallStep(d: Plan, fs: FS, s: FS, b: Binary, whole: bool)
    requires Named(d)
  {
    var g := d.GenerationPath(b);
    && SameBut(fs, s, d.Touched(b)) && (d.StagingFiles(fs) ==> d.StagingFiles(s))
    && InstallPath(b) in s
    && (if whole then
         s[InstallPath(b)] == InstalledEntry(d, b) && (s[InstallPath(b)].Link? ==> g in s && s[g] == d.Fresh(b))
       else InstallPath(b) in fs && s[InstallPath(b)] == fs[InstallPath(b)])
    && (d.GenerationSane(fs, b) ==> d.GenerationSane(s, b))
  }

  lemma {:induction false} InstallLink(d: Plan, fs: FS, b: Binary, copy: Copy, n: nat)
    requires Named(d) && d.StagingFiles(fs) && d.before[InstallPath(b)].Link?
    requires InstallPath(b) in fs && fs[InstallPath(b)].Link? && n <= |InstallOps(d, fs, b, copy)|
    ensures var ops := InstallOps(d, fs, b, copy);
      After(fs, ops, n).Some? && InstallStep(d, fs, After(fs, ops, n).value, b, n == |ops|)
  {
    hide After, PlaceOps;
    var target := d.GenerationPath(b);
    var place, swing := PlaceOps(target, d.candidate(b), copy), SwingOps(fs, b, target);
    PlaceAfter(fs, target, d.candidate(b), copy, 4);
    AfterConcat(fs, place, swing, n);
    if n <= 4 {
      PlaceAfter(fs, target, d.candidate(b), copy, n);
    } else {
      var placed := After(fs, place, 4).value;
      assert SwingOps(placed, b, target) == swing;
      hide SwingOps;
      SwingAfter(placed, b, target, n - 4);
    }
  }

  lemma {:induction false} InstallFile(d: Plan, fs: FS, b: Binary, copy: Copy, n: nat)
    requires Named(d) && d.StagingFiles(fs) && d.before[InstallPath(b)].File?
    requires InstallPath(b) in fs && fs[InstallPath(b)].File? && n <= |InstallOps(d, fs, b, copy)|
    ensures var ops := InstallOps(d, fs, b, copy);
      After(fs, ops, n).Some? && InstallStep(d, fs, After(fs, ops, n).value, b, n == |ops|)
  {
    PlaceAfter(fs, InstallPath(b), d.candidate(b), copy, n);
  }

  /** The state after the first `n` operations that install the next binary. */
  lemma {:induction false} InstallAfter(d: Plan, fs: FS, k: nat, copy: Copy, n: nat)
    requires Named(d) && k < |BINARIES| && Holds(d, fs, k, 0)
    requires n <= |InstallOps(d, fs, BINARIES[k], copy)|
    ensures var ops := InstallOps(d, fs, BINARIES[k], copy);
      After(fs, ops, n).Some? && Holds(d, After(fs, ops, n).value, if n == |ops| then k + 1 else k, 0)
  {
    hide InstallOps, After;
    var b := BINARIES[k];
    assert Index(b) == k;
    assert HoldsName(d, fs, b, k, 0);
    if d.before[InstallPath(b)].Link? { InstallLink(d, fs, b, copy, n); } else { InstallFile(d, fs, b, copy, n); }
    var ops := InstallOps(d, fs, b, copy);
    var s, done := After(fs, ops, n).value, if n == |ops| then k + 1 else k;
    forall c ensures HoldsName(d, s, c, done, 0) && d.GenerationSane(s, c) {
      assert HoldsName(d, fs, c, k, 0) && d.GenerationSane(fs, c);
      assert c != b ==> InstallPath(c) !in d.Touched(b) && d.GenerationPath(c) !in d.Touched(b);
    }
    forall p | !Volatile(p) && !d.IsGeneration(p) ensures d.SameAt(s, p) { assert d.SameAt(fs, p); }
  }

  /** The state after the first `n` operations that restore the next binary. */
  lemma {:induction false} RestoreAfter(d: Plan, fs: FS, k: nat, j: nat, copy: Copy, n: nat)
    requires Named(d) && k <= |BINARIES| && j < |BINARIES| && Holds(d, fs, k, j)
    requires n <= |RestoreOps(d, fs, BINARIES[j], copy)|
    ensures var ops := RestoreOps(d, fs, BINARIES[j], copy);
      After(fs, ops, n).Some? && Holds(d, After(fs, ops, n).value, k, if n == |ops| then j + 1 else j)
  {
    var b := BINARIES[j];
    assert Index(b) == j;
    var old_, ops := d.before[InstallPath(b)], RestoreOps(d, fs, b, copy);
    if old_.Link? {
      SwingAfter(fs, b, old_.target, n);
    } else {
      PlaceAfter(fs, InstallPath(b), old_.image, copy, n);
    }
    var s := After(fs, ops, n).value;
    var done := if n == |ops| then j + 1 else j;
    forall c ensures HoldsName(d, s, c, k, done) && d.GenerationSane(s, c) {
      assert HoldsName(d, fs, c, k, j) && d.GenerationSane(fs, c);
    }
    forall p | !Volatile(p) && !d.IsGeneration(p) ensures d.SameAt(s, p) { assert d.SameAt(fs, p); }
  }

  // ---------------------------------------------------------------- the states of all runs

  /** A moment of a run: `installed` binaries are in place and `operations` of the next one are done; then, if
      the run rolls back, `restored` are back and `backwards` operations of the next one are done. */
  datatype Moment = Moment(installed: nat, operations: nat, restored: nat, backwards: nat)

  ghost function Forward(d: Plan, copies: Copies, k: nat): (fs: FS)
    requires Usual(d) && k <= |BINARIES|
    ensures Holds(d, fs, k, 0)
  {
    if k == 0 then d.before
    else
      var from, b := Forward(d, copies, k - 1), BINARIES[k - 1];
      var ops := InstallOps(d, from, b, copies.install(b));
      InstallAfter(d, from, k - 1, copies.install(b), |ops|);
      After(from, ops, |ops|).value
  }

  ghost function Backward(d: Plan, copies: Copies, from: FS, k: nat, j: nat): (fs: FS)
    requires Usual(d) && k <= |BINARIES| && j <= |BINARIES| && Holds(d, from, k, 0)
    ensures Holds(d, fs, k, j)
  {
    if j == 0 then from
    else
      var s, b := Backward(d, copies, from, k, j - 1), BINARIES[j - 1];
      var ops := RestoreOps(d, s, b, copies.restore(b));
      RestoreAfter(d, s, k, j - 1, copies.restore(b), |ops|);
      After(s, ops, |ops|).value
  }

  ghost function NextInstall(d: Plan, copies: Copies, k: nat): seq<FileOp>
    requires Usual(d) && k <= |BINARIES|
  {
    if k == |BINARIES| then []
    else InstallOps(d, Forward(d, copies, k), BINARIES[k], copies.install(BINARIES[k]))
  }

  /** How many binaries the run has swung to their candidates. */
  ghost function Swung(d: Plan, copies: Copies, k: nat, n: nat): (r: nat)
    requires Usual(d) && k <= |BINARIES|
    ensures r <= |BINARIES|
  {
    if k < |BINARIES| && n == |NextInstall(d, copies, k)| then k + 1 else k
  }

  ghost function Turn(d: Plan, copies: Copies, k: nat, n: nat): (fs: FS)
    requires Usual(d) && k <= |BINARIES| && n <= |NextInstall(d, copies, k)|
    ensures Holds(d, fs, Swung(d, copies, k, n), 0)
  {
    if k < |BINARIES| then
      InstallAfter(d, Forward(d, copies, k), k, copies.install(BINARIES[k]), n);
      After(Forward(d, copies, k), NextInstall(d, copies, k), n).value
    else Forward(d, copies, k)
  }

  ghost function NextRestore(d: Plan, copies: Copies, t: Moment): seq<FileOp>
    requires Usual(d) && t.installed <= |BINARIES| && t.operations <= |NextInstall(d, copies, t.installed)|
    requires t.restored <= |BINARIES|
  {
    if t.restored == |BINARIES| then []
    else
      var from := Turn(d, copies, t.installed, t.operations);
      var s := Backward(d, copies, from, Swung(d, copies, t.installed, t.operations), t.restored);
      RestoreOps(d, s, BINARIES[t.restored], copies.restore(BINARIES[t.restored]))
  }

  ghost predicate Reached(d: Plan, copies: Copies, t: Moment)
    requires Usual(d)
  {
    && t.installed <= |BINARIES| && t.operations <= |NextInstall(d, copies, t.installed)|
    && t.restored <= |BINARIES| && t.backwards <= |NextRestore(d, copies, t)|
  }

  /** How many binaries are installed, and how many restored, at that moment. */
  ghost function Installs(d: Plan, copies: Copies, t: Moment): (r: nat)
    requires Usual(d) && Reached(d, copies, t)
    ensures r <= |BINARIES|
  {
    Swung(d, copies, t.installed, t.operations)
  }

  ghost function Restores(d: Plan, copies: Copies, t: Moment): (r: nat)
    requires Usual(d) && Reached(d, copies, t)
    ensures r <= |BINARIES|
  {
    if t.restored < |BINARIES| && t.backwards == |NextRestore(d, copies, t)| then t.restored + 1 else t.restored
  }

  /** The files at that moment. */
  ghost function StateAt(d: Plan, copies: Copies, t: Moment): (fs: FS)
    requires Usual(d) && Reached(d, copies, t)
    ensures Holds(d, fs, Installs(d, copies, t), Restores(d, copies, t))
  {
    var k := Installs(d, copies, t);
    var s := Backward(d, copies, Turn(d, copies, t.installed, t.operations), k, t.restored);
    if t.restored < |BINARIES| then
      RestoreAfter(d, s, k, t.restored, copies.restore(BINARIES[t.restored]), t.backwards);
      After(s, NextRestore(d, copies, t), t.backwards).value
    else s
  }

  // ---------------------------------------------------------------- what a name reads

  /** The binary whose candidate opening `p` reads once `k` are installed and `j` restored, if it is a candidate:
      links are followed as they were before the deploy, up to a name that holds its candidate. */
  ghost function Source(d: Plan, p: Path, k: nat, j: nat, hops: nat): Option<Binary>
    decreases hops
  {
    if p.dir == InstallDir && p.leaf.Bin? && j <= Index(p.leaf.b) < k then Some(p.leaf.b)
    else if p in d.before && d.before[p].Link? && hops > 0 then Source(d, d.before[p].target, k, j, hops - 1)
    else None
  }

  lemma {:induction false} ReadsSource(d: Plan, fs: FS, p: Path, k: nat, j: nat, hops: nat)
    requires Usual(d) && Holds(d, fs, k, j) && Avoids(d.before, p, d.Scratch, hops) && Final(d.before, p, hops).Some?
    ensures Final(fs, p, hops).Some?
    ensures var now, source := fs[Final(fs, p, hops).value], Source(d, p, k, j, hops);
      if source.Some? then now == d.Fresh(source.value) else Same(d.before[Final(d.before, p, hops).value], now)
    decreases hops
  {
    if p.dir == InstallDir && p.leaf.Bin? {
      var b := p.leaf.b;
      assert p == InstallPath(b) && HoldsName(d, fs, b, k, j);
      if fs[p].Link? {
        if j <= Index(b) < k {
          assert Final(fs, d.GenerationPath(b), hops - 1) == Some(d.GenerationPath(b));
        } else {
          ReadsSource(d, fs, d.before[p].target, k, j, hops - 1);
        }
      }
    } else if d.IsGeneration(p) {
      var b :| p == d.GenerationPath(b);
      assert d.GenerationSane(fs, b);
    } else {
      assert !Volatile(p) && d.SameAt(fs, p);
      if d.before[p].Link? { ReadsSource(d, fs, d.before[p].target, k, j, hops - 1); }
    }
  }

  /** The installed names that reading `p` passed through before the deploy. */
  ghost predicate OnChain(d: Plan, p: Path, c: Binary, hops: nat)
    decreases hops
  {
    p == InstallPath(c) ||
    (p in d.before && d.before[p].Link? && hops > 0 && OnChain(d, d.before[p].target, c, hops - 1))
  }

  lemma {:induction false} SourceOnChain(d: Plan, p: Path, k: nat, j: nat, hops: nat)
    ensures var source := Source(d, p, k, j, hops);
      source.Some? ==> OnChain(d, p, source.value, hops) && j <= Index(source.value) < k
    decreases hops
  {
    if p in d.before && d.before[p].Link? && hops > 0 { SourceOnChain(d, d.before[p].target, k, j, hops - 1); }
  }

  /** When it is the only one that holds its candidate, each name on the chain is the source. */
  lemma {:induction false} SourceAlone(d: Plan, p: Path, c: Binary, hops: nat)
    requires OnChain(d, p, c, hops)
    ensures Source(d, p, Index(c) + 1, Index(c), hops) == Some(c)
    decreases hops
  {
    if p != InstallPath(c) {
      SourceAlone(d, d.before[p].target, c, hops - 1);
      assert p.dir == InstallDir && p.leaf.Bin? ==> BINARIES[Index(p.leaf.b)] != BINARIES[Index(c)];
    }
  }

  // ---------------------------------------------------------------- main results

  /** The candidate of `c` is one of the two images the name `b` may read. */
  ghost predicate Harmless(d: Plan, b: Binary, c: Binary)
    requires Usual(d)
  {
    d.candidate(c) == d.Old(b).image || d.candidate(c) == d.candidate(b)
  }

  ghost predicate Through(d: Plan, b: Binary, c: Binary) { OnChain(d, InstallPath(b), c, MAX_HOPS) }

  /** At every moment of every run an installed name reads its old bytes or its candidate exactly when the candidate
      it reads, if it reads one, has one of these two images. */
  lemma {:induction false} AliasedExactly(d: Plan, copies: Copies, b: Binary, t: Moment)
    requires Usual(d) && Reached(d, copies, t)
    ensures var source := Source(d, InstallPath(b), Installs(d, copies, t), Restores(d, copies, t), MAX_HOPS);
      d.AtomicName(StateAt(d, copies, t), b) <==> source.None? || Harmless(d, b, source.value)
  {
    ReadsSource(d, StateAt(d, copies, t), InstallPath(b), Installs(d, copies, t), Restores(d, copies, t), MAX_HOPS);
  }

  /** Every run keeps a name atomic exactly when the candidates of all names it leads through are harmless. If it is
      installed before them, no run breaks it on the way forward: only a rollback does. */
  lemma {:induction false} AliasedAlways(d: Plan, copies: Copies, b: Binary)
    requires Usual(d)
    ensures (forall t :: Reached(d, copies, t) ==> d.AtomicName(StateAt(d, copies, t), b)) <==>
            (forall c :: Through(d, b, c) ==> Harmless(d, b, c))
    ensures (forall c :: Through(d, b, c) ==> Index(b) <= Index(c)) ==>
      forall t :: Reached(d, copies, t) && t.restored == t.backwards == 0 ==> d.AtomicName(StateAt(d, copies, t), b)
  {
    hide Forward, Backward, Turn, StateAt, Plan.AtomicName, InstallOps, RestoreOps, OnChain, Harmless;
    var p := InstallPath(b);
    SelfHarmless(d, b);
    forall t | Reached(d, copies, t)
      ensures (forall c :: Through(d, b, c) ==> Harmless(d, b, c)) ==> d.AtomicName(StateAt(d, copies, t), b)
      ensures (forall c :: Through(d, b, c) ==> Index(b) <= Index(c)) && t.restored == t.backwards == 0 ==>
        d.AtomicName(StateAt(d, copies, t), b)
    {
      AliasedExactly(d, copies, b, t);
      SourceOnChain(d, p, Installs(d, copies, t), Restores(d, copies, t), MAX_HOPS);
    }
    forall c | Through(d, b, c) && !Harmless(d, b, c)
      ensures exists t :: Reached(d, copies, t) && !d.AtomicName(StateAt(d, copies, t), b)
    {
      var t := Moment(Index(c) + 1, 0, Index(c), 0);
      assert Reached(d, copies, t);
      AliasedExactly(d, copies, b, t);
      SourceAlone(d, p, c, MAX_HOPS);
    }
  }

  lemma {:induction false} SelfHarmless(d: Plan, b: Binary)
    requires Usual(d)
    ensures Harmless(d, b, b)
  {}

  /** The layout of the deploy theorems excludes that one installed name leads through another. */
  lemma {:induction false} AliasedApart(d: Plan, b: Binary, c: Binary)
    requires Named(d) && Through(d, b, c) && b != c
    ensures !d.Apart()
  {
    ChainMeets(d, d.before[InstallPath(b)].target, c, MAX_HOPS - 1);
  }

  lemma {:induction false} ChainMeets(d: Plan, p: Path, c: Binary, hops: nat)
    requires OnChain(d, p, c, hops)
    ensures !Avoids(d.before, p, Volatile, hops)
    decreases hops
  {
    if p != InstallPath(c) { ChainMeets(d, d.before[p].target, c, hops - 1); }
  }

  /** A host on which the daemon leads through kontor to the third binary, and no two images are the same. */
  lemma {:induction false} AliasedExample() returns (d: Plan)
    ensures Usual(d) && Through(d, Daemon, Kontor) && Through(d, Daemon, Mcp)
    ensures !Harmless(d, Daemon, Kontor) && !Harmless(d, Daemon, Mcp)
  {
    var before := map[
      InstallPath(Daemon) := Link(InstallPath(Kontor)),
      InstallPath(Kontor) := Link(InstallPath(Mcp)),
      InstallPath(Mcp) := File([0], EXECUTABLE)];
    d := Plan(before, (image: Image) => "", (p: Path) => [],
        (b: Binary) => if b.Daemon? then [2] else if b.Kontor? then [3] else [4]);
    assert before[InstallPath(Daemon)].target == InstallPath(Kontor);
    assert before[InstallPath(Kontor)].target == InstallPath(Mcp);
    assert Avoids(before, InstallPath(Mcp), d.Scratch, MAX_HOPS - 2);
    assert Final(before, InstallPath(Mcp), MAX_HOPS - 2) == Some(InstallPath(Mcp));
    forall b ensures Read(before, InstallPath(b)).Some? && Avoids(before, InstallPath(b), d.Scratch, MAX_HOPS) {
      assert b == Daemon || b == Kontor || b == Mcp;
    }
    assert d.candidate(Kontor)[0] == 3 && d.candidate(Daemon)[0] == 2 && d.candidate(Mcp)[0] == 4;
    assert d.Old(Daemon).image == [0];
  }
}

/** The deploy transaction: back up, stop, snapshot, install, restart and read back, with its rollback.
    Every effect is one step that may fail, before or after it took place. */
module Deploy {
  import opened Text
  import opened Files

  datatype Error = Failed | OsError | SubprocessError | Interrupt

  /** The errors a rollback step may fail with and let the next one run. */
  predicate RollbackError(e: Error) { !e.Interrupt? }

  /** What the environment does to one step: nothing, or an exception, raised after the effect took
      place or instead of it. A copy that is cut short leaves `partial` behind. */
  datatype Fault = NoFault | Raise(error: Error, landed: bool)

  datatype Job = Stopped | Running(image: Image)

  function InstallPath(b: Binary): Path { Path(InstallDir, Bin(b)) }
  function CandidatePath(b: Binary): Path { Path(CandidateDir, Bin(b)) }
  function BackupPath(b: Binary): Path { Path(BackupDir, OldCopy(b)) }
  function OldLinkPath(b: Binary): Path { Path(BackupDir, OldLink(b)) }
  function StagingPath(p: Path): Path { Path(p.dir, Staging(p.leaf)) }
  function LinkStagingPath(b: Binary): Path { Path(InstallDir, LinkStaging(b)) }
  const SNAPSHOT := Path(BackupDir, Other("snapshot"))

  const BINARIES: seq<Binary> := [Daemon, Kontor, Mcp]

  /** Where the generation with that digest is kept, beside the installed name. */
  function GenerationFor(b: Binary, digest: string): Path {
    Path(InstallDir, Generation(b, if |digest| <= 12 then digest else digest[..12]))
  }

  /** The two file systems differ at most at the paths of `changed`. */
  ghost predicate SameBut(a: FS, b: FS, changed: set<Path>) {
    forall p :: p !in changed ==> (p in a <==> p in b) && (p in a ==> a[p] == b[p])
  }

  /** Names the deploy may change: the backup directory, the installed names and the staging names. */
  predicate Volatile(p: Path) {
    p.dir == BackupDir || (p.dir == InstallDir && (p.leaf.Bin? || p.leaf.Staging? || p.leaf.LinkStaging?))
  }

  /** One deploy: the files before it, the digest of an image, the text of a path, and the candidate images. */
  datatype Plan = Plan(before: FS, sha: Image -> string, text: Path -> Image, candidate: Binary -> Image) {

    function GenerationPath(b: Binary): Path { GenerationFor(b, sha(candidate(b))) }

    ghost predicate IsGeneration(p: Path) { exists b :: p == GenerationPath(b) }

    function Old(b: Binary): FileEntry
      requires Read(before, InstallPath(b)).Some?
    {
      Read(before, InstallPath(b)).value
    }

    /** The layout a deploy expects. Links avoid the names the deploy changes, staging names hold no
        link, and a generation that is already there holds the image its name says. */
    ghost predicate Apart() {
      && (forall b :: InstallPath(b) in before && before[InstallPath(b)].Link? ==>
            Avoids(before, before[InstallPath(b)].target, Volatile, MAX_HOPS - 1))
      && (forall b :: Avoids(before, CandidatePath(b), Volatile, MAX_HOPS))
      && (forall b :: Read(before, CandidatePath(b)).Some? ==>
        Read(before, CandidatePath(b)).value.image == candidate(b))
      && (forall b :: GenerationPath(b) in before ==>
            before[GenerationPath(b)].File? && before[GenerationPath(b)].image == candidate(b))
      && StagingFiles(before)
    }

    /** Every binary is installed: its name leads to a file. */
    ghost predicate Present() { forall b :: Read(before, InstallPath(b)).Some? }

    ghost predicate Layout() { Apart() && Present() }

    /** Every candidate can be read. */
    ghost predicate Readable(fs: FS) { forall b :: Read(fs, CandidatePath(b)).Some? }

    /** No link under a staging name or in the backup directory: a write there lands there. */
    ghost predicate StagingFiles(fs: FS) {
      forall p :: p in fs && ((p.dir == InstallDir && p.leaf.Staging?) || p.dir == BackupDir) ==> fs[p].File?
    }

    /** A candidate installed: `rwxr-xr-x`. */
    function Fresh(b: Binary): FileEntry { File(candidate(b), EXECUTABLE) }

    ghost predicate SameAt(fs: FS, p: Path) {
      (p in fs <==> p in before) && (p in fs ==> fs[p] == before[p])
    }

    ghost predicate GenerationSane(fs: FS, b: Binary) {
      var g := GenerationPath(b);
      (g in before ==> g in fs) && (g in fs ==> fs[g] == Fresh(b) || (g in before && fs[g] == before[g]))
    }

    /** What an installed name may hold during a deploy. */
    ghost predicate NameSane(fs: FS, b: Binary)
      requires Layout()
    {
      var p := InstallPath(b);
      p in fs &&
      if before[p].File? then
        fs[p] == before[p] || fs[p] == Fresh(b) || fs[p] == File(before[p].image, EXECUTABLE)
      else
        fs[p] == before[p] ||
        (fs[p] == Link(GenerationPath(b)) && GenerationPath(b) in fs && fs[GenerationPath(b)] == Fresh(b))
    }

    /** The invariant of every file system step. */
    ghost predicate Sane(fs: FS)
      requires Layout()
    {
      && (forall p :: !Volatile(p) && !IsGeneration(p) ==> SameAt(fs, p))
      && (forall b :: GenerationSane(fs, b) && NameSane(fs, b))
      && StagingFiles(fs) && Guarded(fs)
    }

    /** The realm snapshot is there. */
    predicate Snapped(fs: FS) { SNAPSHOT in fs && fs[SNAPSHOT].File? }

    /** Outside the backup directory nothing has changed as long as there is no realm snapshot. */
    ghost predicate Guarded(fs: FS) { Snapped(fs) || Pristine(fs) }

    /** The installed name reads exactly its old bytes or exactly the candidate's. */
    ghost predicate AtomicName(fs: FS, b: Binary)
      requires Present()
    {
      Read(fs, InstallPath(b)).Some? &&
      var now := Read(fs, InstallPath(b)).value;
      Same(Old(b), now) || now == Fresh(b)
    }

    ghost predicate Atomic(fs: FS)
      requires Present()
    {
      forall b :: AtomicName(fs, b)
    }

    /** Every installed name reads its old bytes, through its old link if it was one, and the file that
        link leads to is the same file. */
    ghost predicate Restored(fs: FS)
      requires Layout()
    {
      forall b ::
        && Read(fs, InstallPath(b)).Some? && Same(Old(b), Read(fs, InstallPath(b)).value)
        && (before[InstallPath(b)].Link? ==>
              InstallPath(b) in fs && fs[InstallPath(b)] == before[InstallPath(b)] &&
              Final(fs, InstallPath(b), MAX_HOPS) == Final(before, InstallPath(b), MAX_HOPS))
    }

    ghost predicate Installed(fs: FS) {
      forall b :: Read(fs, InstallPath(b)) == Some(Fresh(b))
    }

    // ------------------------------------------------------------ what the invariant means

    lemma OldChain(fs: FS, b: Binary)
      requires Layout() && Sane(fs) && InstallPath(b) in fs && before[InstallPath(b)].Link?
      requires fs[InstallPath(b)] == before[InstallPath(b)]
      ensures Final(fs, InstallPath(b), MAX_HOPS) == Final(before, InstallPath(b), MAX_HOPS)
      ensures Read(fs, InstallPath(b)).Some? && Same(Old(b), Read(fs, InstallPath(b)).value)
    {
      forall q | q in before && !Volatile(q) ensures q in fs && Same(before[q], fs[q]) {
        if !IsGeneration(q) { assert SameAt(fs, q); } else {
          var c :| q == GenerationPath(c);
          assert GenerationSane(fs, c);
        }
      }
      ReadAgree(before, fs, before[InstallPath(b)].target, Volatile, MAX_HOPS - 1);
    }

    /** The invariant of the steps implies crash atomicity. */
    lemma SaneIsAtomic(fs: FS)
      requires Layout() && Sane(fs)
      ensures Atomic(fs)
    {
      forall b ensures AtomicName(fs, b) {
        assert NameSane(fs, b);
        if before[InstallPath(b)].Link? {
          if fs[InstallPath(b)] == before[InstallPath(b)] { OldChain(fs, b); } else {
            assert Final(fs, GenerationPath(b), MAX_HOPS - 1) == Some(GenerationPath(b));
          }
        }
      }
    }

    lemma CandidateReadable(fs: FS, b: Binary)
      requires Layout() && Sane(fs) && Read(before, CandidatePath(b)).Some?
      ensures Read(fs, CandidatePath(b)).Some? && Read(fs, CandidatePath(b)).value.image == candidate(b)
    {
      forall q | q in before && !Volatile(q) ensures q in fs && Same(before[q], fs[q]) {
        if !IsGeneration(q) { assert SameAt(fs, q); } else {
          var c :| q == GenerationPath(c);
          assert GenerationSane(fs, c);
        }
      }
      ReadAgree(before, fs, CandidatePath(b), Volatile, MAX_HOPS);
    }

    // ------------------------------------------------------------ steps that keep the invariant

    /** The files outside the backup directory are those before the deploy. */
    ghost predicate Pristine(fs: FS) { forall p: Path :: p.dir != BackupDir ==> SameAt(fs, p) }

    lemma FinalSame(fs: FS, p: Path, hops: nat)
      requires Pristine(fs) && Avoids(before, p, Volatile, hops)
      ensures Final(fs, p, hops) == Final(before, p, hops)
      ensures Final(fs, p, hops).Some? ==> !Volatile(Final(fs, p, hops).value)
      decreases hops
    {
      assert SameAt(fs, p);
      if p in before && before[p].Link? && hops > 0 { FinalSame(fs, before[p].target, hops - 1); }
    }

    lemma PristineReads(fs: FS, b: Binary)
      requires Apart() && Pristine(fs)
      ensures Read(fs, InstallPath(b)) == Read(before, InstallPath(b))
    {
      var p := InstallPath(b);
      assert SameAt(fs, p);
      if p in before && before[p].Link? {
        FinalSame(fs, before[p].target, MAX_HOPS - 1);
        var f := Final(fs, p, MAX_HOPS);
        if f.Some? { assert SameAt(fs, f.value); }
      }
    }

    /** A name that is neither installed nor a generation: staging names and backups. */
    predicate Scratch(p: Path) {
      p.dir == BackupDir || (p.dir == InstallDir && (p.leaf.Staging? || p.leaf.LinkStaging?))
    }

    /** Changing scratch names keeps the invariant as long as no link appears where copies are written. */
    lemma ScratchSane(fs: FS, fs': FS)
      requires Layout() && Sane(fs) && StagingFiles(fs') && Guarded(fs')
      requires forall p :: !Scratch(p) ==> (p in fs <==> p in fs') && (p in fs ==> fs[p] == fs'[p])
      ensures Sane(fs')
    {
      forall p | !Volatile(p) && !IsGeneration(p) ensures SameAt(fs', p) { assert SameAt(fs, p); }
      forall b ensures GenerationSane(fs', b) && NameSane(fs', b) {
        assert GenerationSane(fs, b) && NameSane(fs, b);
        assert !Scratch(GenerationPath(b)) && !Scratch(InstallPath(b));
      }
    }

    /** Replacing one installed name by an allowed entry keeps the invariant. */
    lemma NameStepSane(fs: FS, b: Binary, e: FileEntry)
      requires Layout() && Sane(fs) && Snapped(fs)
      requires NameSane(fs[InstallPath(b) := e], b)
      ensures Sane(fs[InstallPath(b) := e])
    {
      var fs' := fs[InstallPath(b) := e];
      forall p | !Volatile(p) && !IsGeneration(p) ensures SameAt(fs', p) { assert SameAt(fs, p); }
      forall c ensures GenerationSane(fs', c) && NameSane(fs', c) {
        assert GenerationSane(fs, c) && NameSane(fs, c);
      }
    }

    /** A generation only ever becomes the candidate. */
    lemma GenerationStepSane(fs: FS, b: Binary)
      requires Layout() && Sane(fs) && Snapped(fs)
      ensures Sane(fs[GenerationPath(b) := Fresh(b)])
    {
      var fs' := fs[GenerationPath(b) := Fresh(b)];
      forall p | !Volatile(p) && !IsGeneration(p) ensures SameAt(fs', p) { assert SameAt(fs, p); }
      forall c ensures GenerationSane(fs', c) && NameSane(fs', c) {
        assert GenerationSane(fs, c) && NameSane(fs, c);
      }
    }

    // ------------------------------------------------------------ installed and restored entries

    ghost predicate InstalledName(fs: FS, b: Binary) {
      var p := InstallPath(b);
      p in fs && (fs[p] == Fresh(b) ||
        (fs[p] == Link(GenerationPath(b)) && GenerationPath(b) in fs && fs[GenerationPath(b)] == Fresh(b)))
    }

    lemma InstalledReads(fs: FS, b: Binary)
      requires InstalledName(fs, b)
      ensures Read(fs, InstallPath(b)) == Some(Fresh(b))
    {
      if fs[InstallPath(b)].Link? {
        assert Final(fs, GenerationPath(b), MAX_HOPS - 1) == Some(GenerationPath(b));
      }
    }

    lemma InstalledKept(fs: FS, fs': FS, b: Binary, other: Binary)
      requires InstalledName(fs, b) && b != other && SameBut(fs, fs', Touched(other))
      ensures InstalledName(fs', b)
    {
      assert InstallPath(b) !in Touched(other) && GenerationPath(b) !in Touched(other);
    }

    lemma PristineRestored(fs: FS)
      requires Layout() && Sane(fs) && Pristine(fs)
      ensures Restored(fs)
    {
      forall b ensures RestoredName(fs, b) { assert SameAt(fs, InstallPath(b)); }
      RestoredReads(fs);
    }

    ghost predicate RestoredName(fs: FS, b: Binary) {
      var p := InstallPath(b);
      p in fs && p in before &&
      if before[p].File? then Same(before[p], fs[p]) else fs[p] == before[p]
    }

    lemma RestoredReads(fs: FS)
      requires Layout() && Sane(fs) && forall b :: RestoredName(fs, b)
      ensures Restored(fs)
    {
      forall b
        ensures Read(fs, InstallPath(b)).Some? && Same(Old(b), Read(fs, InstallPath(b)).value)
        ensures before[InstallPath(b)].Link? ==>
          InstallPath(b) in fs && fs[InstallPath(b)] == before[InstallPath(b)] &&
          Final(fs, InstallPath(b), MAX_HOPS) == Final(before, InstallPath(b), MAX_HOPS)
      {
        assert RestoredName(fs, b);
        if before[InstallPath(b)].Link? { OldChain(fs, b); }
      }
    }

    /** What may be placed where: a candidate as its generation, and a candidate or the old image as a
        regular installed name. */
    ghost predicate MayPlace(target: Path, image: Image)
      requires Layout()
    {
      exists b :: (target == GenerationPath(b) && image == candidate(b)) ||
                  (target == InstallPath(b) && before[target].File? &&
                   (image == candidate(b) || image == before[target].image))
    }

    lemma PlacedSane(fs: FS, staging: Path, target: Path, image: Image)
      requires Layout() && Sane(fs) && Snapped(fs) && staging.dir == InstallDir && Scratch(staging)
      requires MayPlace(target, image)
      ensures Sane((fs - {staging})[target := File(image, EXECUTABLE)])
    {
      var less := fs - {staging};
      ScratchSane(fs, less);
      var b :| (target == GenerationPath(b) && image == candidate(b)) ||
               (target == InstallPath(b) && before[target].File? &&
                (image == candidate(b) || image == before[target].image));
      if target == GenerationPath(b) && image == candidate(b) {
        GenerationStepSane(less, b);
      } else {
        assert NameSane(less, b);
        NameStepSane(less, b, File(image, EXECUTABLE));
      }
    }

    /** What a link may swing to: its old target, or the candidate's generation once it is in place. */
    ghost predicate MaySwing(fs: FS, b: Binary, target: Path)
      requires Layout()
    {
      Link(target) == before[InstallPath(b)] ||
      (target == GenerationPath(b) && target in fs && fs[target] == Fresh(b))
    }

    lemma SwungSane(fs: FS, staging: Path, b: Binary, target: Path)
      requires Layout() && Sane(fs) && Snapped(fs) && staging.dir == InstallDir && Scratch(staging)
      requires before[InstallPath(b)].Link? && MaySwing(fs, b, target)
      ensures Sane((fs - {staging})[InstallPath(b) := Link(target)])
    {
      ScratchSane(fs, fs - {staging});
      assert NameSane(fs, b);
      NameStepSane(fs - {staging}, b, Link(target));
    }

    lemma BackedKept(fs: FS, fs': FS, changed: set<Path>)
      requires Layout() && SameBut(fs, fs', changed) && forall p :: p in changed ==> p.dir == InstallDir
      requires AllBacked(fs)
      ensures AllBacked(fs')
    {
      forall b ensures Backed(fs', b) {
        assert Backed(fs, b);
        assert BackupPath(b) !in changed && OldLinkPath(b) !in changed;
      }
    }

    /** The names one installation touches. */
    function Touched(b: Binary): set<Path> {
      {InstallPath(b), GenerationPath(b), StagingPath(InstallPath(b)), StagingPath(GenerationPath(b)),
        LinkStagingPath(b)}
    }

    ghost predicate Backed(fs: FS, b: Binary)
      requires Layout()
    {
      && BackupPath(b) in fs && fs[BackupPath(b)].File? && fs[BackupPath(b)].image == Old(b).image
      && (before[InstallPath(b)].Link? ==> Noted(fs, b, before[InstallPath(b)].target))
    }

    /** The old bytes and links of all binaries are saved. */
    ghost predicate AllBacked(fs: FS)
      requires Layout()
    {
      forall b :: Backed(fs, b)
    }

    /** The text of the link is saved. */
    predicate Noted(fs: FS, b: Binary, link: Path) {
      OldLinkPath(b) in fs && fs[OldLinkPath(b)].File? && fs[OldLinkPath(b)].image == text(link)
    }
  }

  // -------------------------------------------------------------- the host

  datatype Previous = Previous(b: Binary, link: Option<Path>)

  /** How far the deploy came: the local flags of the transaction. */
  datatype Flags = Flags(stopped: bool, installing: bool, started: bool)

  /** The content of rollback.json; each error is recorded under the flag of its step. */
  datatype Rollback = Rollback(
    failure: Error,
    newJobStopped: bool, oldBinariesRestored: bool, oldJobRestarted: bool,
    stopError: Option<Error>, restoreError: Option<Error>, restartError: Option<Error>)

  datatype Outcome =
    | Done                                                          // deployment.json is written
    | Refused(error: Error)                                         // before the job was stopped
    | RolledBack(error: Error, flags: Flags, record: Rollback, interrupted: bool)
    | ReceiptFailed(error: Error)                                   // after the read-back

  /** A step that returned, as the deploy goes on. */
  datatype Mark =
    | Digested(b: Binary) | DirMade | Saved(b: Binary) | BackupDigested(b: Binary)
    | Unloaded | PortFree | SnapshotTaken | Placed(b: Binary) | Checked(b: Binary) | Loaded | AnsweredBack
    | PutBack(b: Binary) | RecordWritten | SnapshotDigested | ReceiptWritten

  /** The content of deployment.json: the digests of the old binaries, of the new ones and of the snapshot. */
  datatype Receipt = Receipt(before: map<Binary, string>, after: map<Binary, string>, snapshot: string)

  /** The steps before the job is stopped, the steps from there to the read-back, and those of the rollback. */
  const DIGESTING: seq<Mark> := [Digested(Daemon), Digested(Kontor), Digested(Mcp)]
  const SAVING: seq<Mark> := [Saved(Daemon), Saved(Kontor), Saved(Mcp)]
  const REDIGESTING: seq<Mark> := [BackupDigested(Daemon), BackupDigested(Kontor), BackupDigested(Mcp)]
  const PREPARATION: seq<Mark> := DIGESTING + ([DirMade] + (SAVING + REDIGESTING))
  const INSTALLING: seq<Mark> :=
    [Placed(Daemon), Checked(Daemon), Placed(Kontor), Checked(Kontor), Placed(Mcp), Checked(Mcp)]
  const TRANSACTION: seq<Mark> := [Unloaded, PortFree, SnapshotTaken] + INSTALLING + [Loaded, AnsweredBack]
  const RECEIVING: seq<Mark> := [SnapshotDigested, ReceiptWritten]
  const STOPPING: seq<Mark> := [Unloaded, PortFree]
  const RESTORING: seq<Mark> := [PutBack(Daemon), PutBack(Kontor), PutBack(Mcp)]

  /** A log that went on from `before` by a part of `steps`, by all of them exactly when `all`. */
  predicate Runs(before: seq<Mark>, now: seq<Mark>, steps: seq<Mark>, all: bool) {
    before <= now && now[|before|..] <= steps && (all <==> now[|before|..] == steps)
  }

  lemma RunsOn(a: seq<Mark>, b: seq<Mark>, c: seq<Mark>, first: seq<Mark>, then_: seq<Mark>, all: bool)
    requires Runs(a, b, first, true) && Runs(b, c, then_, all)
    ensures Runs(a, c, first + then_, all)
  {
    assert c[|a|..] == first + c[|b|..];
    if c[|a|..] == first + then_ { assert c[|b|..] == c[|a|..][|first|..] == then_; }
  }

  lemma RunsShort(a: seq<Mark>, b: seq<Mark>, first: seq<Mark>, then_: seq<Mark>)
    requires Runs(a, b, first, false)
    ensures Runs(a, b, first + then_, false)
  {
    assert |b[|a|..]| < |first|;
  }

  lemma RunsAll(before: seq<Mark>, now: seq<Mark>, steps: seq<Mark>)
    requires Runs(before, now, steps, true)
    ensures now == before + steps
  {
    assert now == before + now[|before|..];
  }

  lemma RunsTo(before: seq<Mark>, steps: seq<Mark>, n: nat)
    requires n <= |steps|
    ensures Runs(before, before + steps[..n], steps, n == |steps|)
  {}

  /** The flags of a transaction after so many of its steps. */
  function FlagsAfter(n: nat): Flags { Flags(n >= 1, n >= 3, n >= 10) }

  /** The steps of one part of a rollback: all of them exactly when it is recorded as done. */
  predicate PartRun(did: seq<Mark>, due: bool, done: bool, steps: seq<Mark>) {
    if due then did <= steps && (done <==> did == steps) else did == [] && !done
  }

  /** One part of a rollback in the log. */
  predicate PartLogged(before: seq<Mark>, now: seq<Mark>, due: bool, done: bool, steps: seq<Mark>) {
    (due && Runs(before, now, steps, done)) || (now == before && !done)
  }

  lemma PartGoes(before: seq<Mark>, now: seq<Mark>, due: bool, done: bool, steps: seq<Mark>)
    requires PartLogged(before, now, due, done, steps) && steps != []
    ensures before <= now && PartRun(now[|before|..], due, done, steps)
  {}

  lemma RolledBackSo(before: seq<Mark>, stopped: seq<Mark>, restored: seq<Mark>, ended: seq<Mark>, now: seq<Mark>,
                     flags: Flags, record: Rollback, written: bool)
    requires PartLogged(before, stopped, flags.started, record.newJobStopped, STOPPING)
    requires PartLogged(stopped, restored, flags.installing, record.oldBinariesRestored, RESTORING)
    requires PartLogged(restored, ended, flags.stopped, record.oldJobRestarted, [Loaded])
    requires now == ended + (if written then [RecordWritten] else [])
    ensures before <= now && RollbackRun(now[|before|..], flags, record, written)
  {
    hide PartLogged, PartRun;
    PartGoes(before, stopped, flags.started, record.newJobStopped, STOPPING);
    PartGoes(stopped, restored, flags.installing, record.oldBinariesRestored, RESTORING);
    PartGoes(restored, ended, flags.stopped, record.oldJobRestarted, [Loaded]);
    var stop, restore, start := stopped[|before|..], restored[|stopped|..], ended[|restored|..];
    var tail := if written then [RecordWritten] else [];
    assert now == before + (stop + restore + start + tail);
    assert now[|before|..] == stop + restore + start + tail;
  }

  /** A rollback runs the parts that are due, in this order, and then writes its record. */
  ghost predicate RollbackRun(did: seq<Mark>, flags: Flags, record: Rollback, written: bool) {
    exists stop, restore, start ::
      && PartRun(stop, flags.started, record.newJobStopped, STOPPING)
      && PartRun(restore, flags.installing, record.oldBinariesRestored, RESTORING)
      && PartRun(start, flags.stopped, record.oldJobRestarted, [Loaded])
      && did == stop + restore + start + (if written then [RecordWritten] else [])
  }

  /** A part of the transaction has run, as far as the flags say. */
  predicate Transacted(before: seq<Mark>, now: seq<Mark>, flags: Flags, all: bool) {
    Runs(before, now, TRANSACTION, all) && flags == FlagsAfter(|now| - |before|)
  }

  lemma InstallingPart(before: seq<Mark>, start: seq<Mark>, now: seq<Mark>)
    requires start == before + [Unloaded] + [PortFree] + [SnapshotTaken] && Runs(start, now, INSTALLING, false)
    ensures Transacted(before, now, FlagsAfter(3), false)
  {
    var head: seq<Mark> := [Unloaded, PortFree, SnapshotTaken];
    assert Runs(before, start, head, true);
    RunsOn(before, start, now, head, INSTALLING, false);
    RunsShort(before, now, head + INSTALLING, [Loaded, AnsweredBack]);
    assert |now| - |before| < 9;
  }

  lemma DigestedOnly(before: seq<Mark>, now: seq<Mark>, all: bool)
    requires Runs(before, now, DIGESTING, all)
    ensures Runs(before, now, PREPARATION, false)
  {}

  lemma InstallingPair(i: nat)
    requires i < |BINARIES|
    ensures INSTALLING[2 * i..2 * i + 2] == [Placed(BINARIES[i]), Checked(BINARIES[i])]
  {
    Order();
    assert i == 0 || i == 1 || i == 2;
  }

  lemma InOrder(before: seq<Mark>, now: seq<Mark>, flags: Flags)
    requires Transacted(before, now, flags, false)
    ensures (flags.started ==> flags.installing) && (flags.installing ==> flags.stopped)
  {}

  lemma Complete(before: seq<Mark>, now: seq<Mark>, flags: Flags)
    requires Transacted(before, now, flags, true)
    ensures Runs(before, now, TRANSACTION, true) && flags == Flags(true, true, true)
  {
    RunsAll(before, now, TRANSACTION);
  }

  lemma EarlyPart(before: seq<Mark>)
    ensures Transacted(before, before, Flags(false, false, false), false)
    ensures Transacted(before, before + [Unloaded], Flags(true, false, false), false)
    ensures Transacted(before, before + [Unloaded] + [PortFree], Flags(true, false, false), false)
  {}

  lemma LatePart(before: seq<Mark>, start: seq<Mark>, now: seq<Mark>)
    requires start == before + [Unloaded] + [PortFree] + [SnapshotTaken] && Runs(start, now, INSTALLING, true)
    ensures Transacted(before, now, Flags(true, true, false), false)
    ensures Transacted(before, now + [Loaded], Flags(true, true, true), false)
    ensures Transacted(before, now + [Loaded] + [AnsweredBack], Flags(true, true, true), true)
  {
    var head: seq<Mark> := [Unloaded, PortFree, SnapshotTaken];
    assert start == before + head;
    RunsAll(start, now, INSTALLING);
    assert now == before + (head + INSTALLING);
    assert now + [Loaded] == before + (head + INSTALLING + [Loaded]);
    assert now + [Loaded] + [AnsweredBack] == before + TRANSACTION;
  }

  ghost predicate AllSane(d: Plan, states: seq<FS>)
    requires d.Layout()
  {
    forall i :: 0 <= i < |states| ==> d.Sane(states[i])
  }

  /** The saved links, one for each binary in order. */
  ghost predicate GoodPrevious(d: Plan, previous: seq<Previous>, n: nat)
    requires d.Layout() && n <= |BINARIES|
  {
    |previous| == n && forall i :: 0 <= i < n ==> GoodLink(d, previous[i], BINARIES[i])
  }

  ghost predicate GoodLink(d: Plan, p: Previous, b: Binary)
    requires InstallPath(b) in d.before
  {
    p.b == b && p.link == (match d.before[InstallPath(b)] case Link(t) => Some(t) case File(_, _) => None)
  }

  lemma EveryBinary(b: Binary)
    ensures exists i :: 0 <= i < |BINARIES| && BINARIES[i] == b
  {
    assert BINARIES[0] == Daemon && BINARIES[1] == Kontor && BINARIES[2] == Mcp;
  }

  lemma Order()
    ensures BINARIES[0] == Daemon && BINARIES[1] == Kontor && BINARIES[2] == Mcp
    ensures forall i, j :: 0 <= i < j < |BINARIES| ==> BINARIES[i] != BINARIES[j]
  {}

  ghost predicate KeptAt(a: FS, b: FS, p: Path) { (p in a <==> p in b) && (p in a ==> a[p] == b[p]) }

  /** A binary read before the deploy, saved with its link. */
  ghost predicate SavedName(d: Plan, fs: FS, p: Previous, b: Binary) {
    && Read(d.before, InstallPath(b)).Some? && GoodLink(d, p, b)
    && BackupPath(b) in fs && fs[BackupPath(b)] == Read(d.before, InstallPath(b)).value
    && (p.link.Some? ==> d.Noted(fs, b, p.link.value))
  }

  lemma SavedKept(d: Plan, a: FS, b: FS, p: Previous, name: Binary)
    requires SavedName(d, a, p, name) && KeptAt(a, b, BackupPath(name)) && KeptAt(a, b, OldLinkPath(name))
    ensures SavedName(d, b, p, name)
  {}

  class Host {
    const sha: Image -> string
    const faults: nat -> Fault
    const partial: nat -> Image       // what a copy cut short leaves behind
    const text: Path -> Image         // a link's target written as text
    const realm: Image                // what a snapshot of the realm holds
    var step: nat
    var fs: FS
    var job: Job
    var backupExists: bool
    var rollbackJson: Option<Rollback>
    var deploymentJson: Option<Receipt>
    ghost var trace: seq<FS>
    ghost var log: seq<Mark>

    constructor (sha: Image -> string, faults: nat -> Fault, partial: nat -> Image, text: Path -> Image,
          realm: Image, fs: FS, job: Job)
      ensures this.sha == sha && this.faults == faults && this.partial == partial && this.text == text
      ensures this.realm == realm && this.fs == fs && this.job == job
      ensures !backupExists && rollbackJson == None && deploymentJson == None && trace == [] && log == []
    {
      this.sha, this.faults, this.partial, this.text, this.realm := sha, faults, partial, text, realm;
      this.step, this.fs, this.job := 0, fs, job;
      this.backupExists, this.rollbackJson, this.deploymentJson, this.trace, this.log := false, None, None, [], [];
    }

    /** No step from number `n` on meets a fault. */
    ghost predicate Calm(n: nat) { forall i :: i >= n ==> faults(i).NoFault? }

    /** No step from number `n` up to the current one met a fault. */
    ghost predicate Quiet(n: nat)
      reads this`step
    {
      n <= step && forall i :: n <= i < step ==> faults(i).NoFault?
    }

    /** What the step of that number raises. */
    function Raised(n: nat): Option<Error> { if faults(n).Raise? then Some(faults(n).error) else None }

    /** Whether the step of that number takes effect, raising or not. */
    predicate Lands(n: nat) { faults(n).NoFault? || faults(n).landed }

    /** A step without an effect of its own: reading, polling. */
    method Observe(ghost marks: seq<Mark>) returns (e: Option<Error>)
      modifies this`step, this`log
      ensures step == old(step) + 1 && e == Raised(old(step))
      ensures log == if e.None? then old(log) + marks else old(log)
    {
      e := Raised(step);
      step := step + 1;
      if e.None? { log := log + marks; }
    }

    /** One file system step; its result is recorded in the trace. */
    method Effect(op: FileOp) returns (e: Option<Error>)
      modifies this`step, this`fs, this`trace
      ensures step == old(step) + 1 && trace == old(trace) + [fs]
      ensures var next := Apply(old(fs), op);
        && fs == (if next.Some? && Lands(old(step)) then next.value else old(fs))
        && e == (if Raised(old(step)).None? && next.None? then Some(OsError) else Raised(old(step)))
    {
      var next := Apply(fs, op);
      if next.Some? && Lands(step) { fs := next.value; }
      e := if Raised(step).None? && next.None? then Some(OsError) else Raised(step);
      step := step + 1;
      trace := trace + [fs];
    }

    // ------------------------------------------------------------ copying, placing and swinging

    /** The invariant now, and after every step recorded so far. */
    ghost predicate Safe(d: Plan)
      requires d.Layout()
      reads this`fs, this`trace
    {
      d.Sane(fs) && AllSane(d, trace)
    }

    /** Every state recorded since the trace was `n` long differs from `from` at most at `dest`, a file. */
    ghost predicate OnlyCopied(from: FS, n: nat, dest: Path)
      reads this`trace
    {
      forall i :: n <= i < |trace| ==> SameBut(from, trace[i], {dest}) && (dest in trace[i] ==> trace[i][dest].File?)
    }

    method CopyFile(source: Path, dest: Path) returns (e: Option<Error>)
      requires dest in fs ==> fs[dest].File?
      modifies this`step, this`fs, this`trace, this`log
      ensures old(trace) <= trace && step >= old(step) && log == old(log) && OnlyCopied(old(fs), |old(trace)|, dest)
      ensures SameBut(old(fs), fs, {dest}) && (dest in fs ==> fs[dest].File?)
      ensures e.None? ==> Quiet(old(step)) && dest in fs && Some(fs[dest]) == Read(old(fs), source)
      ensures Calm(old(step)) && Read(old(fs), source).Some? ==> e.None?
    {
      e := Observe([]);
      if e.Some? { return; }
      var from := Read(fs, source);
      if from.None? { return Some(OsError); }
      e := Effect(Write(dest, partial(step), from.value.mode));
      if e.Some? { return; }
      e := Effect(Write(dest, from.value.image, from.value.mode));
    }

    lemma CopySafe(d: Plan, from: FS, past: seq<FS>, dest: Path)
      requires d.Layout() && d.Sane(from) && d.Snapped(from) && AllSane(d, past) && past <= trace
      requires dest.dir == InstallDir && d.Scratch(dest) && OnlyCopied(from, |past|, dest)
      requires SameBut(from, fs, {dest}) && (dest in fs ==> fs[dest].File?)
      ensures Safe(d)
    {
      d.ScratchSane(from, fs);
      forall i | 0 <= i < |trace| ensures d.Sane(trace[i]) {
        if i < |past| { assert trace[i] == past[i]; } else { d.ScratchSane(from, trace[i]); }
      }
    }

    /** Copies a file to a staging name and makes it executable. */
    method StageCopy(ghost d: Plan, source: Path, staging: Path) returns (e: Option<Error>)
      requires d.Layout() && Safe(d) && d.Snapped(fs) && staging.dir == InstallDir && staging.leaf.Staging?
      modifies this`step, this`fs, this`trace, this`log
      ensures Safe(d) && d.Snapped(fs) && old(trace) <= trace && step >= old(step) && log == old(log)
      ensures SameBut(old(fs), fs, {staging})
      ensures e.None? ==> Quiet(old(step)) && Read(old(fs), source).Some? && staging in fs &&
                          fs[staging] == File(Read(old(fs), source).value.image, EXECUTABLE)
      ensures Calm(old(step)) && Read(old(fs), source).Some? ==> e.None?
    {
      hide Plan.Sane, Plan.Apart, Plan.Present, Plan.Pristine, Safe, AllSane;
      SafeStaging(d);
      e := CopyFile(source, staging);
      CopySafe(d, old(fs), old(trace), staging);
      if e.Some? { return; }
      ghost var copied, past := fs, trace;
      SafeStaging(d);
      assert Final(fs, staging, MAX_HOPS) == Some(staging);
      e := Effect(Chmod(staging, EXECUTABLE));
      d.ScratchSane(copied, fs);
      SafeStep(d, past);
    }

    method Place(ghost d: Plan, source: Path, target: Path) returns (e: Option<Error>)
      requires d.Layout() && Safe(d) && d.Snapped(fs) && target.dir == InstallDir
      requires Read(fs, source).Some? ==> d.MayPlace(target, Read(fs, source).value.image)
      modifies this`step, this`fs, this`trace, this`log
      ensures Safe(d) && d.Snapped(fs) && old(trace) <= trace && step >= old(step) && log == old(log)
      ensures SameBut(old(fs), fs, {target, StagingPath(target)})
      ensures e.None? ==> Quiet(old(step))
      ensures e.None? ==> Read(old(fs), source).Some? && target in fs &&
                          fs[target] == File(Read(old(fs), source).value.image, EXECUTABLE)
      ensures Calm(old(step)) && Read(old(fs), source).Some? ==> e.None?
    {
      hide Plan.Sane, Plan.Apart, Plan.Present, Plan.MayPlace, Plan.Pristine, Safe, AllSane, Read;
      var staging := StagingPath(target);
      e := StageCopy(d, source, staging);
      if e.Some? { return; }
      ghost var marked, past := fs, trace;
      SafeStaging(d);
      e := Effect(Rename(staging, target));
      d.PlacedSane(marked, staging, target, Read(old(fs), source).value.image);
      SafeStep(d, past);
    }

    /** One more recorded state that keeps the invariant. */
    lemma SafeStep(d: Plan, past: seq<FS>)
      requires d.Layout() && AllSane(d, past) && d.Sane(fs) && trace == past + [fs]
      ensures Safe(d)
    {}

    lemma SafeStaging(d: Plan)
      requires d.Layout() && Safe(d)
      ensures d.Sane(fs) && AllSane(d, trace) && d.StagingFiles(fs)
    {}

    /** Removes what an earlier run left under the staging name of a link. */
    method ClearStaging(ghost d: Plan, staging: Path) returns (e: Option<Error>)
      requires d.Layout() && Safe(d) && d.Snapped(fs) && staging.dir == InstallDir && d.Scratch(staging)
      modifies this`step, this`fs, this`trace
      ensures Safe(d) && d.Snapped(fs) && old(trace) <= trace && step >= old(step)
      ensures SameBut(old(fs), fs, {staging})
      ensures e.None? ==> Quiet(old(step)) && staging !in fs
      ensures Calm(old(step)) ==> e.None?
    {
      if staging !in fs { return None; }
      e := Effect(Unlink(staging));
      d.ScratchSane(old(fs), fs);
    }

    /** Puts a new link under its staging name. */
    method StageLink(ghost d: Plan, staging: Path, target: Path) returns (e: Option<Error>)
      requires d.Layout() && Safe(d) && d.Snapped(fs) && staging.dir == InstallDir && staging.leaf.LinkStaging?
      modifies this`step, this`fs, this`trace
      ensures Safe(d) && d.Snapped(fs) && old(trace) <= trace && step >= old(step)
      ensures SameBut(old(fs), fs, {staging})
      ensures e.None? ==> Quiet(old(step)) && staging in fs && fs[staging] == Link(target)
      ensures Calm(old(step)) ==> e.None?
    {
      hide Plan.Sane, Plan.Apart, Plan.Present, Plan.Pristine, Safe, AllSane, Final;
      e := ClearStaging(d, staging);
      if e.Some? { return; }
      ghost var bare, past := fs, trace;
      SafeStaging(d);
      e := Effect(Symlink(staging, target));
      d.ScratchSane(bare, fs);
      SafeStep(d, past);
    }

    method Swing(ghost d: Plan, b: Binary, target: Path) returns (e: Option<Error>)
      requires d.Layout() && Safe(d) && d.Snapped(fs) && d.before[InstallPath(b)].Link? && d.MaySwing(fs, b, target)
      modifies this`step, this`fs, this`trace
      ensures Safe(d) && d.Snapped(fs) && old(trace) <= trace && step >= old(step)
      ensures SameBut(old(fs), fs, {InstallPath(b), LinkStagingPath(b)})
      ensures e.None? ==> Quiet(old(step)) && InstallPath(b) in fs && fs[InstallPath(b)] == Link(target)
      ensures Calm(old(step)) ==> e.None?
    {
      hide Plan.Sane, Plan.Apart, Plan.Present, Plan.Pristine, Safe, AllSane, Final;
      var staging := LinkStagingPath(b);
      e := StageLink(d, staging, target);
      if e.Some? { return; }
      ghost var linked, past := fs, trace;
      SafeStaging(d);
      e := Effect(Rename(staging, InstallPath(b)));
      d.SwungSane(linked, staging, b, target);
      SafeStep(d, past);
    }

    /** A candidate may become its generation, and the regular file of its name. */
    lemma MayInstall(d: Plan, b: Binary)
      requires d.Layout() && Safe(d) && Read(d.before, CandidatePath(b)).Some?
      ensures Read(fs, CandidatePath(b)).Some? && Read(fs, CandidatePath(b)).value.image == d.candidate(b)
      ensures d.MayPlace(d.GenerationPath(b), d.candidate(b))
      ensures InstallPath(b) in fs && (fs[InstallPath(b)].Link? ==> d.before[InstallPath(b)].Link?)
      ensures fs[InstallPath(b)].File? ==> d.MayPlace(InstallPath(b), d.candidate(b))
    {
      d.CandidateReadable(fs, b);
      assert d.NameSane(fs, b);
    }

    method Install(ghost d: Plan, b: Binary) returns (e: Option<Error>)
      requires d.Layout() && Safe(d) && d.Snapped(fs) && d.sha == sha && Read(d.before, CandidatePath(b)).Some?
      modifies this`step, this`fs, this`trace, this`log
      ensures Safe(d) && d.Snapped(fs) && old(trace) <= trace && step >= old(step)
      ensures SameBut(old(fs), fs, d.Touched(b))
      ensures e.None? ==> Quiet(old(step)) && d.InstalledName(fs, b)
      ensures log == if e.None? then old(log) + [Placed(b)] else old(log)
      ensures Calm(old(step)) ==> e.None?
    {
      hide Plan.Sane, Plan.Apart, Plan.Present, Plan.MayPlace, Plan.Snapped, Safe;
      var source, target := CandidatePath(b), InstallPath(b);
      MayInstall(d, b);
      if target in fs && fs[target].Link? {
        e := Observe([]);
        if e.Some? { return; }
        var image := Read(fs, source);
        if image.None? { return Some(OsError); }
        var generation := GenerationFor(b, sha(image.value.image));
        e := Place(d, source, generation);
        if e.Some? { return; }
        e := Swing(d, b, generation);
      } else {
        e := Place(d, source, target);
      }
      if e.None? { log := log + [Placed(b)]; }
    }

    method RestoreOne(ghost d: Plan, old_: Previous) returns (e: Option<Error>)
      requires d.Layout() && Safe(d) && d.Snapped(fs) && d.AllBacked(fs) && GoodLink(d, old_, old_.b)
      modifies this`step, this`fs, this`trace, this`log
      ensures Safe(d) && d.Snapped(fs) && old(trace) <= trace && step >= old(step) && d.AllBacked(fs)
      ensures forall b :: b != old_.b && d.RestoredName(old(fs), b) ==> d.RestoredName(fs, b)
      ensures e.None? ==> Quiet(old(step)) && d.RestoredName(fs, old_.b)
      ensures log == if e.None? then old(log) + [PutBack(old_.b)] else old(log)
      // A regular file comes back with its bytes and mode 0755, whatever its mode was.
      ensures e.None? && old_.link.None? ==>
                InstallPath(old_.b) in fs && fs[InstallPath(old_.b)] == File(d.Old(old_.b).image, EXECUTABLE)
      ensures Calm(old(step)) ==> e.None?
    {
      hide Plan.Sane, Plan.Apart, Plan.AllBacked, Plan.MayPlace, Plan.Snapped, Safe;
      var target := InstallPath(old_.b);
      match old_.link {
        case Some(link) =>
          e := Swing(d, old_.b, link);
          d.BackedKept(old(fs), fs, {target, LinkStagingPath(old_.b)});
        case None =>
          BackupReads(d, old_.b);
          e := Place(d, BackupPath(old_.b), target);
          d.BackedKept(old(fs), fs, {target, StagingPath(target)});
      }
      if e.None? { log := log + [PutBack(old_.b)]; }
    }

    method Restore(ghost d: Plan, previous: seq<Previous>) returns (e: Option<Error>)
      requires d.Layout() && Safe(d) && d.Snapped(fs) && GoodPrevious(d, previous, |BINARIES|)
      requires d.AllBacked(fs)
      modifies this`step, this`fs, this`trace, this`log
      ensures Safe(d) && d.Snapped(fs) && old(trace) <= trace && step >= old(step) && d.AllBacked(fs)
      ensures e.None? ==> forall b :: d.RestoredName(fs, b)
      ensures Runs(old(log), log, RESTORING, e.None?)
      ensures Calm(old(step)) ==> e.None?
    {
      Order();
      for i := 0 to |previous|
        invariant Safe(d) && d.Snapped(fs) && old(trace) <= trace && step >= old(step)
        invariant d.AllBacked(fs)
        invariant log == old(log) + RESTORING[..i]
        invariant forall j :: 0 <= j < i ==> d.RestoredName(fs, BINARIES[j])
      {
        e := RestoreOne(d, previous[i]);
        if e.Some? { return; }
      }
      e := None;
      forall b ensures d.RestoredName(fs, b) { EveryBinary(b); }
    }

    lemma BackupReads(d: Plan, b: Binary)
      requires d.Layout() && Safe(d) && d.AllBacked(fs) && d.before[InstallPath(b)].File?
      ensures Read(fs, BackupPath(b)).Some? && Read(fs, BackupPath(b)).value.image == d.Old(b).image
      ensures d.Old(b) == d.before[InstallPath(b)] && d.MayPlace(InstallPath(b), d.Old(b).image)
    {
      assert d.Backed(fs, b);
    }

    // ------------------------------------------------------------ before the job is stopped

    /** Nothing outside the backup directory has changed, now or after any step since the trace was `n` long. */
    ghost predicate Untouched(d: Plan, n: nat)
      reads this`fs, this`trace
    {
      d.Pristine(fs) && d.StagingFiles(fs) &&
      forall i :: n <= i < |trace| ==> d.Pristine(trace[i]) && d.StagingFiles(trace[i])
    }

    lemma UntouchedSafe(d: Plan, past: seq<FS>)
      requires d.Layout() && AllSane(d, past) && past <= trace && Untouched(d, |past|)
      ensures Safe(d)
    {
      forall i | 0 <= i < |trace| ensures d.Sane(trace[i]) {
        if i < |past| { assert trace[i] == past[i]; }
      }
    }

    lemma UntouchedGuarded(d: Plan)
      requires Untouched(d, 0)
      ensures d.Guarded(fs) && d.Pristine(fs)
      ensures forall i :: 0 <= i < |trace| ==> d.Guarded(trace[i]) && d.Pristine(trace[i])
    {}

    lemma CopyUntouched(d: Plan, from: FS, n: nat, m: nat, dest: Path)
      requires n <= m && dest.dir == BackupDir && d.Pristine(from) && d.StagingFiles(from)
      requires forall i :: n <= i < m && i < |trace| ==> d.Pristine(trace[i]) && d.StagingFiles(trace[i])
      requires OnlyCopied(from, m, dest) && SameBut(from, fs, {dest}) && (dest in fs ==> fs[dest].File?)
      ensures Untouched(d, n)
    {
      assert forall p: Path :: p.dir != BackupDir ==> d.SameAt(from, p);
    }

    method WriteText(dest: Path, content: Path) returns (e: Option<Error>)
      requires dest in fs ==> fs[dest].File?
      modifies this`step, this`fs, this`trace
      ensures old(trace) <= trace && step >= old(step) && OnlyCopied(old(fs), |old(trace)|, dest)
      ensures SameBut(old(fs), fs, {dest}) && (dest in fs ==> fs[dest].File?)
      ensures e.None? ==> Quiet(old(step)) && dest in fs && fs[dest].File? && fs[dest].image == text(content)
      ensures Calm(old(step)) ==> e.None?
    {
      e := Effect(Write(dest, text(content), 0x1A4));
    }

    method SaveOne(ghost d: Plan, b: Binary) returns (saved: Previous, e: Option<Error>)
      requires d.Apart() && d.text == text && Untouched(d, |trace|)
      modifies this`step, this`fs, this`trace, this`log
      ensures old(trace) <= trace && step >= old(step) && Untouched(d, |old(trace)|)
      ensures forall p: Path :: p.leaf != OldCopy(b) && p.leaf != OldLink(b) ==> KeptAt(old(fs), fs, p)
      ensures e.None? ==> Quiet(old(step)) && SavedName(d, fs, saved, b)
      ensures log == if e.None? then old(log) + [Saved(b)] else old(log)
      ensures Calm(old(step)) && d.Layout() ==> e.None?
    {
      hide Plan.Apart;
      var target := InstallPath(b);
      saved := Previous(b, None);
      d.PristineReads(fs, b);
      assert d.SameAt(fs, target);
      if Read(fs, target).None? { return saved, Some(Failed); }
      var link := match fs[target] case Link(t) => Some(t) case File(_, _) => None;
      saved := Previous(b, link);
      e := CopyFile(target, BackupPath(b));
      CopyUntouched(d, old(fs), |old(trace)|, |old(trace)|, BackupPath(b));
      if e.Some? { return; }
      if link.Some? {
        ghost var m, from := |trace|, fs;
        e := WriteText(OldLinkPath(b), link.value);
        CopyUntouched(d, from, |old(trace)|, m, OldLinkPath(b));
        if e.Some? { return; }
      }
      log := log + [Saved(b)];
    }

    method BackUp(ghost d: Plan) returns (previous: seq<Previous>, e: Option<Error>)
      requires d.Apart() && d.text == text && Untouched(d, |trace|)
      modifies this`step, this`fs, this`trace, this`log
      ensures old(trace) <= trace && step >= old(step) && Untouched(d, |old(trace)|)
      ensures e.None? ==> d.Layout() && GoodPrevious(d, previous, |BINARIES|) && d.AllBacked(fs)
      ensures e.None? ==> Quiet(old(step))
      ensures Runs(old(log), log, SAVING, e.None?)
      ensures Calm(old(step)) && d.Layout() ==> e.None?
    {
      hide Plan.Sane, SavedName, Plan.Pristine, Plan.StagingFiles;
      previous := [];
      Order();
      for i := 0 to |BINARIES|
        invariant old(trace) <= trace && step >= old(step) && Untouched(d, |old(trace)|)
        invariant |previous| == i && Quiet(old(step)) && log == old(log) + SAVING[..i]
        invariant forall j :: 0 <= j < i ==> SavedName(d, fs, previous[j], BINARIES[j])
      {
        ghost var n, start := |trace|, fs;
        var saved;
        saved, e := SaveOne(d, BINARIES[i]);
        Widen(d, |old(trace)|, n);
        if e.Some? { return; }
        forall j | 0 <= j < i ensures SavedName(d, fs, previous[j], BINARIES[j]) {
          SavedKept(d, start, fs, previous[j], BINARIES[j]);
        }
        previous := previous + [saved];
      }
      e := None;
      AllSaved(d, previous);
    }

    lemma Widen(d: Plan, n: nat, m: nat)
      requires n <= m && Untouched(d, m)
      requires forall i :: n <= i < m && i < |trace| ==> d.Pristine(trace[i]) && d.StagingFiles(trace[i])
      ensures Untouched(d, n)
    {}

    lemma AllSaved(d: Plan, previous: seq<Previous>)
      requires d.Apart() && |previous| == |BINARIES|
      requires forall j :: 0 <= j < |BINARIES| ==> SavedName(d, fs, previous[j], BINARIES[j])
      ensures d.Layout() && GoodPrevious(d, previous, |BINARIES|) && d.AllBacked(fs)
    {
      forall b ensures Read(d.before, InstallPath(b)).Some? { EveryBinary(b); }
      forall b ensures d.Backed(fs, b) { EveryBinary(b); }
    }

    // ------------------------------------------------------------ the job

    /** What a step raises that cannot succeed unless `possible`. */
    function Outcome(n: nat, possible: bool): Option<Error> {
      if Raised(n).None? && !possible then Some(Failed) else Raised(n)
    }

    method StopJob() returns (e: Option<Error>)
      modifies this`step, this`job, this`log
      ensures step == old(step) + 1
      ensures job == if Lands(old(step)) then Stopped else old(job)
      ensures e == Outcome(old(step), old(job).Running?)
      ensures log == if e.None? then old(log) + [Unloaded] else old(log)
    {
      e := Outcome(step, job.Running?);
      if Lands(step) { job := Stopped; }
      step := step + 1;
      if e.None? { log := log + [Unloaded]; }
    }

    /** Unloads the job and then waits for its port to fall silent. */
    method Bootout() returns (e: Option<Error>)
      modifies this`step, this`job, this`log
      ensures step >= old(step) && job == if Lands(old(step)) then Stopped else old(job)
      ensures e.None? ==> Quiet(old(step)) && job == Stopped
      ensures Runs(old(log), log, STOPPING, e.None?)
      ensures Calm(old(step)) ==> e == if old(job).Running? then None else Some(Failed)
    {
      e := StopJob();
      if e.Some? { return; }
      e := Observe([PortFree]);                         // wait_port_free
    }

    /** Starts the job from what the daemon's installed name reads; a loaded job is not loaded twice. */
    method Bootstrap() returns (e: Option<Error>)
      modifies this`step, this`job, this`log
      ensures step == old(step) + 1
      ensures var daemon := Read(fs, InstallPath(Daemon));
        && job == (if old(job).Stopped? && daemon.Some? && Lands(old(step)) then Running(daemon.value.image)
                   else old(job))
        && e == Outcome(old(step), old(job).Stopped? && daemon.Some?)
      ensures log == if e.None? then old(log) + [Loaded] else old(log)
    {
      var daemon := Read(fs, InstallPath(Daemon));
      var possible := job.Stopped? && daemon.Some?;
      if possible && Lands(step) { job := Running(daemon.value.image); }
      e := Outcome(step, possible);
      step := step + 1;
      if e.None? { log := log + [Loaded]; }
    }

    method WriteRollback(record: Rollback) returns (e: Option<Error>)
      modifies this`step, this`rollbackJson, this`log
      ensures step == old(step) + 1 && e == Raised(old(step))
      ensures rollbackJson == if Lands(old(step)) then Some(record) else old(rollbackJson)
      ensures log == if e.None? then old(log) + [RecordWritten] else old(log)
    {
      e := Raised(step);
      if Lands(step) { rollbackJson := Some(record); }
      step := step + 1;
      if e.None? { log := log + [RecordWritten]; }
    }

    method WriteDeployment(receipt: Receipt) returns (e: Option<Error>)
      modifies this`step, this`deploymentJson, this`log
      ensures step == old(step) + 1 && e == Raised(old(step))
      ensures deploymentJson == if Lands(old(step)) then Some(receipt) else old(deploymentJson)
      ensures log == if e.None? then old(log) + [ReceiptWritten] else old(log)
    {
      e := Raised(step);
      if Lands(step) { deploymentJson := Some(receipt); }
      step := step + 1;
      if e.None? { log := log + [ReceiptWritten]; }
    }

    // ------------------------------------------------------------ the transaction

    /** The realm snapshot lands in the backup directory. */
    method Snapshot(ghost d: Plan) returns (e: Option<Error>)
      requires d.Layout() && Safe(d) && d.Pristine(fs) && d.AllBacked(fs)
      modifies this`step, this`fs, this`trace, this`log
      ensures Safe(d) && old(trace) <= trace && step >= old(step)
      ensures d.Pristine(fs) && d.AllBacked(fs)
      // The snapshot is the one taken now, of the realm.
      ensures e.None? ==> Quiet(old(step)) && d.Snapped(fs) && fs[SNAPSHOT] == File(realm, 0x180)
      ensures log == if e.None? then old(log) + [SnapshotTaken] else old(log)
      ensures Calm(old(step)) ==> e.None?
    {
      e := Effect(Write(SNAPSHOT, realm, 0x180));
      assert SameBut(old(fs), fs, {SNAPSHOT});
      assert forall p: Path :: p.dir != BackupDir ==> d.SameAt(old(fs), p);
      d.ScratchSane(old(fs), fs);
      forall b ensures d.Backed(fs, b) {
        assert d.Backed(old(fs), b) && BackupPath(b) != SNAPSHOT && OldLinkPath(b) != SNAPSHOT;
        assert KeptAt(old(fs), fs, BackupPath(b)) && KeptAt(old(fs), fs, OldLinkPath(b));
      }
      if e.Some? { return; }
      if Read(fs, SNAPSHOT).None? { return Some(Failed); }
      log := log + [SnapshotTaken];
    }

    /** The digest of every candidate. */
    ghost predicate DigestsOf(d: Plan, after: map<Binary, string>) {
      forall b :: b in after && after[b] == sha(d.candidate(b))
    }

    /** Installs one candidate and compares what its name reads with the digest of the candidate. */
    method InstallChecked(ghost d: Plan, b: Binary, after: map<Binary, string>) returns (e: Option<Error>)
      requires DigestsOf(d, after)
      requires d.Layout() && Safe(d) && d.Snapped(fs) && d.sha == sha && d.AllBacked(fs)
      requires Read(d.before, CandidatePath(b)).Some?
      modifies this`step, this`fs, this`trace, this`log
      ensures Safe(d) && d.Snapped(fs) && old(trace) <= trace && step >= old(step) && d.AllBacked(fs)
      ensures forall c :: c != b && d.InstalledName(old(fs), c) ==> d.InstalledName(fs, c)
      ensures e.None? ==> Quiet(old(step)) && d.InstalledName(fs, b)
      ensures Runs(old(log), log, [Placed(b), Checked(b)], e.None?)
      ensures Calm(old(step)) ==> e.None?
    {
      hide Plan.Sane, Plan.Apart, Plan.Backed;
      e := Install(d, b);
      d.BackedKept(old(fs), fs, d.Touched(b));
      forall c | c != b && d.InstalledName(old(fs), c) ensures d.InstalledName(fs, c) {
        d.InstalledKept(old(fs), fs, c, b);
      }
      if e.Some? { return; }
      e := Observe([Checked(b)]);
      if e.Some? { return; }
      d.InstalledReads(fs, b);
      var now := Read(fs, InstallPath(b));
      if now.None? || sha(now.value.image) != after[b] { return Some(Failed); }
    }

    /** Installs the candidates in order. */
    method InstallAll(ghost d: Plan, after: map<Binary, string>) returns (e: Option<Error>)
      requires DigestsOf(d, after)
      requires d.Layout() && Safe(d) && d.Snapped(fs) && d.sha == sha && d.AllBacked(fs)
      requires d.Readable(d.before)
      modifies this`step, this`fs, this`trace, this`log
      ensures Safe(d) && d.Snapped(fs) && old(trace) <= trace && step >= old(step) && d.AllBacked(fs)
      ensures e.None? ==> Quiet(old(step)) && d.Installed(fs)
      ensures Runs(old(log), log, INSTALLING, e.None?)
      ensures Calm(old(step)) ==> e.None?
    {
      hide Plan.Sane, Plan.Apart, Plan.AllBacked, DigestsOf, Plan.InstalledName;
      Order();
      for i := 0 to |BINARIES|
        invariant Safe(d) && d.Snapped(fs) && old(trace) <= trace && Quiet(old(step)) && d.AllBacked(fs)
        invariant log == old(log) + INSTALLING[..2 * i]
        invariant forall j :: 0 <= j < i ==> d.InstalledName(fs, BINARIES[j])
      {
        e := InstallChecked(d, BINARIES[i], after);
        InstallingPair(i);
        if e.Some? { return; }
      }
      e := None;
      forall b ensures Read(fs, InstallPath(b)) == Some(d.Fresh(b)) { EveryBinary(b); d.InstalledReads(fs, b); }
    }

    lemma DaemonInstalled(d: Plan)
      requires d.Installed(fs)
      ensures Read(fs, InstallPath(Daemon)) == Some(d.Fresh(Daemon))
    {}

    /** The steps from stopping the job to reading the realm back, with how far they came. */
    method Attempt(ghost d: Plan, after: map<Binary, string>) returns (flags: Flags, e: Option<Error>)
      requires d.Layout() && Safe(d) && d.sha == sha && d.Pristine(fs) && d.AllBacked(fs)
      requires DigestsOf(d, after) && d.Readable(d.before)
      modifies this`step, this`fs, this`trace, this`job, this`log
      ensures Safe(d) && old(trace) <= trace && step >= old(step) && d.AllBacked(fs)
      // The steps run in their order, and the flags say how far they came.
      ensures Transacted(old(log), log, flags, e.None?)
      ensures !flags.installing ==> d.Pristine(fs)
      ensures flags.installing ==> d.Snapped(fs)
      // A stop that raised leaves the job unloaded exactly when it took effect.
      ensures !flags.stopped ==> job == if Lands(old(step)) then Stopped else old(job)
      ensures flags.stopped ==> old(job).Running?
      ensures flags.started ==> d.Installed(fs) && job == Running(d.candidate(Daemon))
      ensures flags.stopped && !flags.started && job.Running? ==> d.Installed(fs) && job.image == d.candidate(Daemon)
      ensures e.None? ==> Quiet(old(step))
      ensures Calm(old(step)) && old(job).Running? ==> e.None?
    {
      hide Plan.Layout, Plan.Readable, Plan.AllBacked, Plan.Pristine, Plan.Installed, Plan.Snapped, DigestsOf,
        Transacted, Runs, Read, Safe;
      ghost var before := log;
      EarlyPart(before);
      flags := Flags(false, false, false);
      e := StopJob();
      if e.Some? { return; }
      flags := flags.(stopped := true);
      e := Observe([PortFree]);                         // wait_port_free
      if e.Some? { return; }
      e := Snapshot(d);
      if e.Some? { return; }
      flags := flags.(installing := true);
      ghost var start := log;
      e := InstallAll(d, after);
      if e.Some? { InstallingPart(before, start, log); return; }
      DaemonInstalled(d);
      LatePart(before, start, log);
      e := Bootstrap();
      if e.Some? { return; }
      flags := flags.(started := true);
      e := Observe([AnsweredBack]);                     // read_back
    }

    /** The job is as the flags say: running if started, otherwise unloaded once stopped. */
    predicate JobAsFlags(flags: Flags)
      reads this`job
    {
      (flags.started ==> job.Running?) && (flags.stopped && !flags.started ==> job.Stopped?)
    }

    /** The daemon's name reads a file, the old one if the names are restored or were never touched. */
    lemma DaemonRestored(d: Plan, restored: bool, touched: bool)
      requires d.Layout() && Safe(d)
      requires restored ==> if touched then d.Restored(fs) else d.Pristine(fs)
      ensures Read(fs, InstallPath(Daemon)).Some?
      ensures restored ==> d.Restored(fs) && Read(fs, InstallPath(Daemon)).value.image == d.Old(Daemon).image
    {
      d.SaneIsAtomic(fs);
      assert d.AtomicName(fs, Daemon);
      if restored && !touched { d.PristineRestored(fs); }
    }

    method StopNew(due: bool) returns (done: bool, error: Option<Error>, interrupted: bool)
      modifies this`step, this`job, this`log
      ensures step >= old(step) && Recorded(due, done, error, interrupted)
      ensures PartLogged(old(log), log, due, done, STOPPING)
      ensures (done ==> job == Stopped) && (!due ==> job == old(job) && !interrupted)
      ensures job == old(job) || job == Stopped
      ensures Calm(old(step)) && due ==> !interrupted && job == Stopped && done == old(job).Running?
    {
      if !due { return false, None, false; }
      var x := Bootout();
      done, error, interrupted := x.None?, None, false;
      if x.Some? {
        if RollbackError(x.value) { error := x; } else { interrupted := true; }
      }
    }

    method PutBackOld(ghost d: Plan, previous: seq<Previous>, due: bool)
      returns (done: bool, error: Option<Error>, interrupted: bool)
      requires d.Layout() && Safe(d) && GoodPrevious(d, previous, |BINARIES|) && d.AllBacked(fs)
      requires due ==> d.Snapped(fs)
      modifies this`step, this`fs, this`trace, this`log
      ensures Safe(d) && old(trace) <= trace && d.AllBacked(fs) && step >= old(step)
      ensures Recorded(due, done, error, interrupted) && PartLogged(old(log), log, due, done, RESTORING)
      ensures (due ==> d.Snapped(fs)) && (!due ==> fs == old(fs)) && (done ==> d.Restored(fs))
      ensures Calm(old(step)) ==> !interrupted && done == due
    {
      if !due { return false, None, false; }
      var x := Restore(d, previous);
      done, error, interrupted := x.None?, None, false;
      if x.Some? {
        if RollbackError(x.value) { error := x; } else { interrupted := true; }
      } else {
        d.RestoredReads(fs);
      }
    }

    method StartOld(ghost d: Plan, due: bool, ghost restored: bool, ghost touched: bool)
      returns (done: bool, error: Option<Error>, interrupted: bool)
      requires d.Layout() && Safe(d)
      requires restored ==> if touched then d.Restored(fs) else d.Pristine(fs)
      modifies this`step, this`job, this`log
      ensures step >= old(step) && Recorded(due, done, error, interrupted)
      ensures PartLogged(old(log), log, due, done, [Loaded])
      ensures !due ==> job == old(job) && !interrupted
      ensures restored ==> d.Restored(fs) && (done ==> job == Running(d.Old(Daemon).image))
      ensures Calm(old(step)) && due ==>
                !interrupted && done == old(job).Stopped? && (old(job).Running? ==> job == old(job))
    {
      DaemonRestored(d, restored, touched);
      if !due { return false, None, false; }
      var x := Bootstrap();
      done, error, interrupted := x.None?, None, false;
      if x.Some? {
        if RollbackError(x.value) { error := x; } else { interrupted := true; }
      }
    }

    method RollBack(ghost d: Plan, previous: seq<Previous>, flags: Flags, failure: Error)
      returns (record: Rollback, interrupted: bool, writeError: Option<Error>)
      requires d.Layout() && Safe(d) && GoodPrevious(d, previous, |BINARIES|) && d.AllBacked(fs)
      requires (flags.started ==> flags.installing) && (flags.installing ==> flags.stopped)
      requires (!flags.installing ==> d.Pristine(fs)) && (flags.installing ==> d.Snapped(fs))
      modifies this`step, this`fs, this`trace, this`job, this`rollbackJson, this`log
      ensures Safe(d) && old(trace) <= trace && (!flags.stopped ==> job == old(job)) && d.AllBacked(fs)
      // The parts that are due run in their order, and each is recorded as done when all its steps returned.
      ensures old(log) <= log && RollbackRun(log[|old(log)|..], flags, record, writeError.None?)
      // Only what was due is recorded, and a due step is recorded as done, as failed, or was interrupted.
      ensures Recorded(flags.started, record.newJobStopped, record.stopError, interrupted)
      ensures Recorded(flags.installing, record.oldBinariesRestored, record.restoreError, interrupted)
      ensures Recorded(flags.stopped, record.oldJobRestarted, record.restartError, interrupted)
      // Whatever happened, the record is written last.
      ensures record.failure == failure && (rollbackJson == old(rollbackJson) || rollbackJson == Some(record))
      ensures writeError.None? ==> rollbackJson == Some(record)
      // What the recorded flags mean.
      ensures !flags.installing ==> d.Pristine(fs)
      ensures record.oldBinariesRestored ==> d.Restored(fs)
      ensures record.oldJobRestarted && (flags.installing ==> record.oldBinariesRestored) ==>
                d.Restored(fs) && job == Running(d.Old(Daemon).image)
      // With no further fault the rollback completes, provided the job is as the flags say.
      ensures Calm(old(step)) && old(JobAsFlags(flags)) ==>
                !interrupted && writeError.None? &&
                record.newJobStopped == flags.started && record.oldBinariesRestored == flags.installing &&
                record.oldJobRestarted == flags.stopped
      // With no further fault the old job runs again exactly unless a start took effect and still raised.
      ensures Calm(old(step)) && flags.stopped ==> (record.oldJobRestarted <==> flags.started || old(job).Stopped?)
      // In that case the job goes on as it is, behind the files that came back.
      ensures Calm(old(step)) && flags.stopped && !flags.started && old(job).Running? ==>
                job == old(job) && (flags.installing ==> d.Restored(fs))
    {
      hide Plan.Sane, Plan.AllBacked, Plan.Pristine, Plan.Restored, GoodPrevious, Safe, Runs, RollbackRun;
      record := Rollback(failure, false, false, false, None, None, None);
      var done, error, cut := StopNew(flags.started);
      record, interrupted := record.(newJobStopped := done, stopError := error), cut;
      ghost var stopped := log;
      if !interrupted {
        done, error, cut := PutBackOld(d, previous, flags.installing);
        record, interrupted := record.(oldBinariesRestored := done, restoreError := error), cut;
      }
      ghost var restored := log;
      if !interrupted {
        done, error, cut := StartOld(d, flags.stopped, !flags.installing || record.oldBinariesRestored,
            flags.installing);
        record, interrupted := record.(oldJobRestarted := done, restartError := error), cut;
      }
      ghost var ended := log;
      writeError := WriteRollback(record);
      RolledBackSo(old(log), stopped, restored, ended, log, flags, record, writeError.None?);
    }

    lemma CandidateImage(d: Plan, b: Binary)
      requires d.Apart() && d.before == fs && Read(fs, CandidatePath(b)).Some?
      ensures Read(fs, CandidatePath(b)).value.image == d.candidate(b)
    {}

    /** The digest of every candidate, or the first failure. */
    method Digests(ghost d: Plan) returns (after: map<Binary, string>, e: Option<Error>)
      requires d.Apart() && d.before == fs && d.sha == sha
      modifies this`step, this`log
      ensures step >= old(step) && Runs(old(log), log, DIGESTING, e.None?)
      ensures e.None? ==> Quiet(old(step)) && DigestsOf(d, after) && d.Readable(fs)
      ensures Calm(old(step)) && d.Readable(fs) ==> e.None?
    {
      hide Plan.Apart, Read;
      after := map[];
      Order();
      for i := 0 to |BINARIES|
        invariant forall j :: 0 <= j < i ==> Read(fs, CandidatePath(BINARIES[j])).Some?
      {
        if Read(fs, CandidatePath(BINARIES[i])).None? { assert log == old(log) + []; return after, Some(Failed); }
      }
      for i := 0 to |BINARIES|
        invariant Quiet(old(step)) && log == old(log) + DIGESTING[..i]
        invariant forall j :: 0 <= j < i ==> BINARIES[j] in after && after[BINARIES[j]] == sha(d.candidate(BINARIES[j]))
      {
        e := Observe([Digested(BINARIES[i])]);
        if e.Some? { return; }
        assert DIGESTING[..i] + [Digested(BINARIES[i])] == DIGESTING[..i + 1];
        CandidateImage(d, BINARIES[i]);
        after := after[BINARIES[i] := sha(Read(fs, CandidatePath(BINARIES[i])).value.image)];
      }
      e := None;
      forall b ensures Read(fs, CandidatePath(b)).Some? && b in after && after[b] == sha(d.candidate(b)) {
        EveryBinary(b);
      }
    }

    method MakeBackupDir() returns (e: Option<Error>)
      modifies this`step, this`backupExists, this`log
      ensures step == old(step) + 1 && e == Outcome(old(step), !old(backupExists))
      ensures backupExists == (old(backupExists) || Lands(old(step)))
      ensures log == if e.None? then old(log) + [DirMade] else old(log)
    {
      e := Outcome(step, !backupExists);
      if Lands(step) { backupExists := true; }
      step := step + 1;
      if e.None? { log := log + [DirMade]; }
    }

    /** The digests of the old binaries, read from the backups. */
    ghost predicate OldDigests(d: Plan, before: map<Binary, string>)
      requires d.Present()
    {
      forall b :: b in before && before[b] == sha(d.Old(b).image)
    }

    method DigestBackups(ghost d: Plan) returns (before: map<Binary, string>, e: Option<Error>)
      requires d.Layout() && d.AllBacked(fs)
      modifies this`step, this`log
      ensures step >= old(step) && Runs(old(log), log, REDIGESTING, e.None?)
      ensures e.None? ==> Quiet(old(step)) && OldDigests(d, before)
      ensures Calm(old(step)) ==> e.None?
    {
      before := map[];
      Order();
      for i := 0 to |BINARIES|
        invariant Quiet(old(step)) && log == old(log) + REDIGESTING[..i]
        invariant forall j :: 0 <= j < i ==>
          BINARIES[j] in before && before[BINARIES[j]] == sha(d.Old(BINARIES[j]).image)
      {
        var b := BINARIES[i];
        e := Observe([BackupDigested(b)]);
        if e.Some? { return; }
        assert REDIGESTING[..i] + [BackupDigested(b)] == REDIGESTING[..i + 1];
        assert d.Backed(fs, b);
        var copy := Read(fs, BackupPath(b));
        before := before[b := sha(copy.value.image)];
      }
      e := None;
      forall b ensures b in before && before[b] == sha(d.Old(b).image) { EveryBinary(b); }
    }

    /** The candidates are there, and their digests are the expected ones. */
    method Admit(ghost d: Plan, production: bool, expected: map<Binary, string>)
      returns (after: map<Binary, string>, e: Option<Error>)
      requires d.Apart() && d.before == fs && d.sha == sha
      modifies this`step, this`log
      ensures step >= old(step) && exists all :: (e.None? ==> all) && Runs(old(log), log, DIGESTING, all)
      ensures e.None? ==> Quiet(old(step)) && DigestsOf(d, after) && d.Readable(fs)
      ensures e.None? ==> (forall b :: b in expected ==> expected[b] == sha(d.candidate(b))) &&
                          (production ==> forall b :: b in expected)
      ensures Calm(old(step)) && Deployable(d, production, expected, false) ==> e.None?
    {
      hide Plan.Apart, Runs, Plan.Readable;
      after, e := Digests(d);
      if e.Some? { return; }
      if production && exists b | b in BINARIES :: b !in expected { return after, Some(Failed); }
      forall b | production ensures b in expected { EveryBinary(b); }
      if exists b | b in expected :: after[b] != expected[b] { return after, Some(Failed); }
    }

    /** The new backup directory, the backups and their digests. */
    method SaveAll(ghost d: Plan) returns (previous: seq<Previous>, before: map<Binary, string>, e: Option<Error>)
      requires d.Apart() && d.text == text && Untouched(d, |trace|)
      modifies this`step, this`fs, this`trace, this`backupExists, this`log
      ensures old(trace) <= trace && Untouched(d, |old(trace)|)
      ensures step >= old(step) && Runs(old(log), log, [DirMade] + (SAVING + REDIGESTING), e.None?)
      ensures e.None? ==> Quiet(old(step)) && !old(backupExists)
      ensures e.None? ==> d.Layout() && GoodPrevious(d, previous, |BINARIES|) && d.AllBacked(fs)
      ensures e.None? ==> OldDigests(d, before)
      ensures Calm(old(step)) && d.Layout() && !old(backupExists) ==> e.None?
    {
      hide Runs, Plan.Apart, Plan.AllBacked, GoodPrevious, OldDigests, Untouched;
      previous, before := [], map[];
      ghost var start, rest: seq<Mark> := log, SAVING + REDIGESTING;
      e := MakeBackupDir();
      if e.Some? {
        RunsTo(start, [DirMade] + rest, 0);
        assert start + ([DirMade] + rest)[..0] == start;
        return;
      }
      ghost var made := log;
      RunsTo(start, [DirMade], 1);
      previous, e := BackUp(d);
      if e.Some? {
        RunsShort(made, log, SAVING, REDIGESTING);
        RunsOn(start, made, log, [DirMade], rest, false);
        return;
      }
      ghost var saved := log;
      before, e := DigestBackups(d);
      RunsOn(made, saved, log, SAVING, REDIGESTING, e.None?);
      RunsOn(start, made, log, [DirMade], rest, e.None?);
    }

    /** The checks and the backup that come before the job is stopped. */
    method Prepare(ghost d: Plan, production: bool, expected: map<Binary, string>)
      returns (previous: seq<Previous>, before: map<Binary, string>, after: map<Binary, string>, e: Option<Error>)
      requires d.Apart() && d.before == fs && d.sha == sha && d.text == text
      modifies this`step, this`fs, this`trace, this`backupExists, this`log
      ensures old(trace) <= trace && Untouched(d, |old(trace)|)
      ensures Runs(old(log), log, PREPARATION, e.None?)
      ensures e.None? ==> d.Layout() && GoodPrevious(d, previous, |BINARIES|) && d.AllBacked(fs)
      ensures e.None? ==> DigestsOf(d, after) && OldDigests(d, before)
      ensures e.None? ==> d.Readable(d.before)
      ensures e.None? ==> (forall b :: b in expected ==> expected[b] == sha(d.candidate(b))) &&
                          (production ==> forall b :: b in expected) && !old(backupExists)
      ensures step >= old(step) && (e.None? ==> Quiet(old(step)))
      ensures Calm(old(step)) && Deployable(d, production, expected, old(backupExists)) ==> e.None?
    {
      hide Runs, Plan.Present, Plan.AllBacked, Plan.Readable, GoodPrevious, OldDigests, DigestsOf;
      previous, before := [], map[];
      assert Untouched(d, |trace|);
      ghost var start := log;
      after, e := Admit(d, production, expected);
      ghost var all :| (e.None? ==> all) && Runs(start, log, DIGESTING, all);
      if e.Some? { DigestedOnly(start, log, all); return; }
      ghost var digested := log;
      previous, before, e := SaveAll(d);
      RunsOn(start, digested, log, DIGESTING, [DirMade] + (SAVING + REDIGESTING), e.None?);
    }

    /** The rollback, and what is raised after it. */
    method Undo(ghost d: Plan, previous: seq<Previous>, flags: Flags, failure: Error) returns (out: Outcome)
      requires d.Layout() && Safe(d) && GoodPrevious(d, previous, |BINARIES|) && d.AllBacked(fs)
      requires Transacted(PREPARATION, log, flags, false) && rollbackJson == None
      requires (!flags.installing ==> d.Pristine(fs)) && (flags.installing ==> d.Snapped(fs))
      modifies this`step, this`fs, this`trace, this`job, this`rollbackJson, this`log
      ensures Safe(d) && old(trace) <= trace && d.AllBacked(fs)
      ensures out.RolledBack? && out.flags == flags && Accounted(out) && Followed(log, out)
      ensures rollbackJson in {None, Some(out.record)} && (!flags.stopped ==> job == old(job) && d.Pristine(fs))
      ensures out.record.oldBinariesRestored ==> d.Restored(fs)
      ensures out.record.oldJobRestarted && (flags.installing ==> out.record.oldBinariesRestored) ==>
                d.Restored(fs) && job == Running(d.Old(Daemon).image)
    {
      hide Plan.Layout, Plan.AllBacked, Plan.Pristine, Plan.Restored, GoodPrevious, Safe, Transacted, RollbackRun,
        Recorded;
      ghost var failed := log;
      InOrder(PREPARATION, log, flags);
      var record, interrupted, writeError := RollBack(d, previous, flags, failure);
      var raised := if writeError.Some? then writeError.value else if interrupted then Interrupt else failure;
      out := RolledBack(raised, flags, record, interrupted);
      FollowedBack(failed, log, out, writeError.None?);
    }

    /** The receipt, with the digest of the snapshot. */
    method Receive(ghost d: Plan, before: map<Binary, string>, after: map<Binary, string>) returns (out: Outcome)
      requires d.Layout() && d.Snapped(fs) && OldDigests(d, before) && DigestsOf(d, after)
      requires Runs(PREPARATION, log, TRANSACTION, true)
      modifies this`step, this`deploymentJson, this`log
      ensures (out.Done? || out.ReceiptFailed?) && Followed(log, out)
      ensures out.Done? ==> Quiet(old(step)) && deploymentJson.Some? && TrueReceipt(d, deploymentJson.value)
      ensures Calm(old(step)) ==> out.Done?
    {
      hide Plan.Present, Plan.Apart, OldDigests, DigestsOf, Runs;
      RunsAll(PREPARATION, log, TRANSACTION);
      var e := Observe([SnapshotDigested]);
      if e.Some? {
        RunsTo(PREPARATION + TRANSACTION, RECEIVING, 0);
        assert log == PREPARATION + TRANSACTION + RECEIVING[..0];
        return ReceiptFailed(e.value);
      }
      e := WriteDeployment(Receipt(before, after, sha(Read(fs, SNAPSHOT).value.image)));
      RunsTo(PREPARATION + TRANSACTION, RECEIVING, if e.None? then 2 else 1);
      assert log == PREPARATION + TRANSACTION + RECEIVING[..if e.None? then 2 else 1];
      out := if e.None? then Done else ReceiptFailed(e.value);
    }

    method Replace(ghost d: Plan, production: bool, expected: map<Binary, string>) returns (out: Outcome)
      requires d.Apart() && d.before == fs && d.sha == sha && d.text == text
      requires !backupExists ==> rollbackJson == None && deploymentJson == None
      modifies this
      // Crash atomicity, at every step and at the end.
      ensures d.Layout() ==> d.Atomic(fs) && forall i :: 0 <= i < |trace| ==> d.Atomic(trace[i])
      ensures !d.Layout() ==> out.Refused?
      // No installed name changes, at any step, before the realm snapshot is there.
      ensures d.Guarded(fs) && forall i :: 0 <= i < |trace| ==> d.Guarded(trace[i])
      // The steps run in their order: all of them exactly on success, and as far as the flags say otherwise.
      ensures Followed(log, out)
      ensures out.Done? ==> Quiet(old(step))
      // A refusal changes nothing outside the backup directory; a reused backup directory is refused.
      ensures out.Refused? ==> d.Pristine(fs) && (forall i :: 0 <= i < |trace| ==> d.Pristine(trace[i])) &&
                               job == old(job) && rollbackJson == old(rollbackJson) &&
                               deploymentJson == old(deploymentJson)
      ensures old(backupExists) ==> out.Refused?
      ensures (exists b :: b in expected && expected[b] != sha(d.candidate(b))) ==> out.Refused?
      ensures production && (exists b :: b !in expected) ==> out.Refused?
      // Once the job was to be stopped, the old binaries and links stand in the backup directory to the end.
      ensures !out.Refused? ==> d.Layout() && d.AllBacked(fs)
      // Success, and the failures that follow it.
      ensures out.Done? || out.ReceiptFailed? ==>
                d.Installed(fs) && d.Snapped(fs) && job == Running(d.candidate(Daemon)) && rollbackJson == None
      // The receipt names the bytes that were there, those that are there now, and the snapshot.
      ensures out.Done? ==> deploymentJson.Some? && TrueReceipt(d, deploymentJson.value)
      ensures deploymentJson == old(deploymentJson) || (deploymentJson.Some? && (out.Done? || out.ReceiptFailed?))
      ensures old(Calm(step)) && Deployable(d, production, expected, old(backupExists)) && old(job).Running? ==>
        out.Done?
      // A failure between the stop and the read-back.
      ensures out.RolledBack? ==> rollbackJson in {None, Some(out.record)} && Accounted(out)
      ensures (out.RolledBack? && out.record.oldJobRestarted &&
               (out.flags.installing ==> out.record.oldBinariesRestored)) ==>
                d.Restored(fs) && job == Running(d.Old(Daemon).image)
      ensures out.RolledBack? && out.record.oldBinariesRestored ==> d.Restored(fs)
      ensures out.RolledBack? && !out.flags.stopped ==> d.Pristine(fs) && (job == old(job) || job == Stopped)
    {
      hide Plan.Sane, Plan.Atomic, Plan.Restored, Plan.Installed, Plan.Apart, Plan.AllBacked, Plan.Readable,
        Plan.Guarded, Recorded, Runs, RollbackRun, DigestsOf, OldDigests, GoodPrevious, TrueReceipt;
      trace, log := [], [];
      var previous, before, after, e := Prepare(d, production, expected);
      if e.Some? {
        UntouchedGuarded(d);
        if d.Layout() { UntouchedSafe(d, []); SafeAtomic(d); }
        return Refused(e.value);
      }
      RunsAll([], log, PREPARATION);
      assert log == PREPARATION;
      UntouchedSafe(d, []);
      var flags;
      flags, e := Attempt(d, after);
      if e.None? { Complete(PREPARATION, log, flags); }
      if e.Some? { out := Undo(d, previous, flags, e.value); } else { out := Receive(d, before, after); }
      SafeAtomic(d);
    }

    /** The digests are those of the old bytes, of the installed ones and of the snapshot. */
    ghost predicate TrueReceipt(d: Plan, r: Receipt)
      requires d.Present()
      reads this`fs
    {
      && OldDigests(d, r.before) && DigestsOf(d, r.after)
      && Read(fs, SNAPSHOT).Some? && r.snapshot == sha(Read(fs, SNAPSHOT).value.image)
    }

    lemma SafeAtomic(d: Plan)
      requires d.Layout() && Safe(d)
      ensures d.Atomic(fs) && forall i :: 0 <= i < |trace| ==> d.Atomic(trace[i])
      ensures d.Guarded(fs) && forall i :: 0 <= i < |trace| ==> d.Guarded(trace[i])
    {
      d.SaneIsAtomic(fs);
      forall i | 0 <= i < |trace| ensures d.Atomic(trace[i]) { d.SaneIsAtomic(trace[i]); }
    }
  }

  /** The log of a whole deploy. A refusal stops in the preparation. A rollback follows a transaction that stopped
      where its flags say, and raises what stopped it, unless it was interrupted or its record could not be written. */
  ghost predicate Followed(log: seq<Mark>, out: Outcome) {
    match out
    case Done => log == PREPARATION + TRANSACTION + RECEIVING
    case Refused(_) => Runs([], log, PREPARATION, false)
    case RolledBack(_, _, _, _) => exists failed, written :: FollowedBackSo(failed, log, out, written)
    case ReceiptFailed(_) => Runs(PREPARATION + TRANSACTION, log, RECEIVING, false)
  }

  ghost predicate FollowedBackSo(failed: seq<Mark>, log: seq<Mark>, out: Outcome, written: bool)
    requires out.RolledBack?
  {
    && Transacted(PREPARATION, failed, out.flags, false)
    && failed <= log && RollbackRun(log[|failed|..], out.flags, out.record, written)
    && (written ==> out.error == if out.interrupted then Interrupt else out.record.failure)
  }

  lemma FollowedBack(failed: seq<Mark>, log: seq<Mark>, out: Outcome, written: bool)
    requires out.RolledBack? && FollowedBackSo(failed, log, out, written)
    ensures Followed(log, out)
  {}

  /** Nothing stands in the way: all names are there, the digests are as expected, the backup is new. */
  ghost predicate Deployable(d: Plan, production: bool, expected: map<Binary, string>, backupExists: bool) {
    && d.Layout() && !backupExists
    && d.Readable(d.before)
    && (forall b :: b in expected ==> expected[b] == d.sha(d.candidate(b)))
    && (production ==> forall b :: b in expected)
  }

  /** Each step of the rollback is recorded once, under its own flag. */
  predicate Accounted(out: Outcome)
    requires out.RolledBack?
  {
    && Recorded(out.flags.started, out.record.newJobStopped, out.record.stopError, out.interrupted)
    && Recorded(out.flags.installing, out.record.oldBinariesRestored, out.record.restoreError, out.interrupted)
    && Recorded(out.flags.stopped, out.record.oldJobRestarted, out.record.restartError, out.interrupted)
  }

  /** How one rollback step is recorded: not due, done, failed, or cut off by an interrupt. */
  predicate Recorded(due: bool, done: bool, error: Option<Error>, interrupted: bool) {
    && (done || error.Some? ==> due)
    && !(done && error.Some?)
    && (error.Some? ==> RollbackError(error.value))
    && (due && !interrupted ==> done || error.Some?)
  }

  /** A plan with the expected layout: three regular files and three candidates. */
  lemma {:induction false} LayoutExample() returns (d: Plan)
    ensures d.Layout() && forall b :: Read(d.before, CandidatePath(b)) == Some(d.Fresh(b))
  {
    var before := map[
      InstallPath(Daemon) := File([0], EXECUTABLE),
      InstallPath(Kontor) := File([1], EXECUTABLE),
      InstallPath(Mcp) := File([2], EXECUTABLE),
      CandidatePath(Daemon) := File([3], EXECUTABLE),
      CandidatePath(Kontor) := File([4], EXECUTABLE),
      CandidatePath(Mcp) := File([5], EXECUTABLE)];
    d := Plan(before, (image: Image) => "", (p: Path) => [],
      (b: Binary) => if b.Daemon? then [3] else if b.Kontor? then [4] else [5]);
    assert InstallPath(Daemon) in before && InstallPath(Kontor) in before && InstallPath(Mcp) in before;
    assert before[CandidatePath(Daemon)] == d.Fresh(Daemon);
    assert before[CandidatePath(Kontor)] == d.Fresh(Kontor);
    assert before[CandidatePath(Mcp)] == d.Fresh(Mcp);
    forall b ensures Read(before, InstallPath(b)).Some? && Read(before, CandidatePath(b)) == Some(d.Fresh(b)) {
      assert b == Daemon || b == Kontor || b == Mcp;
      assert before[InstallPath(b)].File? && before[CandidatePath(b)] == d.Fresh(b);
    }
  }
}

/** Files and symbolic links, and the single steps that change them. */
module Files {
  import opened Text

  newtype byte = x: int | 0 <= x < 256
  type Image = seq<byte>

  datatype Binary = Daemon | Kontor | Mcp

  datatype Dir = InstallDir | CandidateDir | BackupDir | Elsewhere(name: string)

  /** The last component of a path: an installed binary, a generation of one named by a digest prefix,
      the two staging names, a backup, or any other name. */
  datatype Leaf =
    | Bin(b: Binary)
    | Generation(b: Binary, prefix: string)
    | Staging(of: Leaf)
    | LinkStaging(b: Binary)
    | OldCopy(b: Binary)
    | OldLink(b: Binary)
    | Other(name: string)

  datatype Path = Path(dir: Dir, leaf: Leaf)

  datatype FileEntry = File(image: Image, mode: nat) | Link(target: Path)

  type FS = map<Path, FileEntry>

  /** Symbolic links followed before the system gives up. */
  const MAX_HOPS: nat := 32

  /** The regular file a path leads to. */
  function Final(fs: FS, p: Path, hops: nat): (r: Option<Path>)
    ensures r.Some? ==> r.value in fs && fs[r.value].File?
    decreases hops
  {
    if p !in fs then None
    else if fs[p].File? then Some(p)
    else if hops == 0 then None
    else Final(fs, fs[p].target, hops - 1)
  }

  /** What opening the path reads: a file's entry, or nothing. */
  function Read(fs: FS, p: Path): (r: Option<FileEntry>)
    ensures r.Some? ==> r.value.File?
  {
    var f := Final(fs, p, MAX_HOPS);
    if f.Some? then Some(fs[f.value]) else None
  }

  /** Where a write to the path lands: writes follow links too. */
  function Landing(fs: FS, p: Path, hops: nat): Path
    decreases hops
  {
    if p in fs && fs[p].Link? && hops > 0 then Landing(fs, fs[p].target, hops - 1) else p
  }

  datatype FileOp =
    | Write(path: Path, image: Image, mode: nat)
    | Chmod(path: Path, mode: nat)
    | Rename(from: Path, to: Path)
    | Unlink(path: Path)
    | Symlink(path: Path, target: Path)

  /** One step on the file system, or nothing when the system refuses it. */
  function Apply(fs: FS, op: FileOp): Option<FS> {
    match op
    case Write(p, image, mode) => Some(fs[Landing(fs, p, MAX_HOPS) := File(image, mode)])
    case Chmod(p, mode) =>
      var f := Final(fs, p, MAX_HOPS);
      if f.Some? then Some(fs[f.value := File(fs[f.value].image, mode)]) else None
    case Rename(from, to) =>
      if from in fs then Some((fs - {from})[to := fs[from]]) else None
    case Unlink(p) => if p in fs then Some(fs - {p}) else None
    case Symlink(p, target) => if p in fs then None else Some(fs[p := Link(target)])
  }

  /** The chain of links from `p` meets no path of `avoid`. */
  ghost predicate Avoids(fs: FS, p: Path, avoid: Path -> bool, hops: nat)
    decreases hops
  {
    !avoid(p) && (p in fs && fs[p].Link? && hops > 0 ==> Avoids(fs, fs[p].target, avoid, hops - 1))
  }

  /** The same entry, or a file with the same bytes that became `rwxr-xr-x`. */
  predicate Same(before: FileEntry, after: FileEntry) {
    before == after || (before.File? && after == File(before.image, EXECUTABLE))
  }

  const EXECUTABLE: nat := 0x1ED

  /** Reading through links that avoid every changed name gives the same bytes. */
  lemma {:induction false} ReadAgree(before: FS, after: FS, p: Path, avoid: Path -> bool, hops: nat)
    requires Avoids(before, p, avoid, hops) && Final(before, p, hops).Some?
    requires forall q :: q in before && !avoid(q) ==> q in after && Same(before[q], after[q])
    ensures Final(after, p, hops) == Final(before, p, hops)
    ensures var f := Final(before, p, hops).value; !avoid(f) && Same(before[f], after[f])
    decreases hops
  {
    if before[p].Link? { ReadAgree(before, after, before[p].target, avoid, hops - 1); }
  }

  lemma {:induction false} FinalKept(fs: FS, p: Path, hops: nat, entry: FileEntry)
    requires Final(fs, p, hops).Some? && entry.File?
    ensures Final(fs[Final(fs, p, hops).value := entry], p, hops) == Final(fs, p, hops)
    ensures Landing(fs, p, hops) == Final(fs, p, hops).value
    decreases hops
  {
    if fs[p].Link? { FinalKept(fs, fs[p].target, hops - 1, entry); }
  }

  /** A write or a change of mode through links is what is read through them after it. */
  lemma {:induction false} WrittenReads(fs: FS, p: Path, image: Image, mode: nat)
    requires Read(fs, p).Some? || p !in fs
    ensures var next := Apply(fs, Write(p, image, mode)); next.Some? && Read(next.value, p) == Some(File(image, mode))
    ensures var next := Apply(fs, Chmod(p, mode));
      if p in fs then next.Some? && Read(next.value, p) == Some(File(Read(fs, p).value.image, mode)) else next == None
  {
    if p in fs {
      FinalKept(fs, p, MAX_HOPS, File(image, mode));
      FinalKept(fs, p, MAX_HOPS, File(Read(fs, p).value.image, mode));
    }
  }
}

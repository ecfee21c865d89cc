/** Building a content-addressed snapshot of a directory. */
module Captures {
  import opened Basics
  import opened Paths
  import opened Snapshots
  import opened NameOrder

  /** What the file system reports about one path. */
  datatype Info = Info(link: bool, dir: bool, mode: nat, size: nat)

  type Name = name: string | GoodName(name) witness "a"

  datatype DirEnt = DirEnt(name: Name, isDir: bool)

  /** The file system during one capture; `realPaths` holds the paths that links resolve to, and a path of
      more than `maxDepth` components is too long to be opened without being resolved. */
  datatype FileSystem = FileSystem(
    realPaths: set<string>,
    maxDepth: nat,
    resolve: string -> Option<string>,
    readDir: string -> Option<seq<DirEnt>>,
    stat: string -> Option<Info>,
    lstat: string -> Option<Info>,
    readlink: string -> Option<Bytes>,
    content: string -> Option<Bytes>)

  datatype Options = Options(exclude: (string, bool) -> bool, followSymlinks: bool, maxFileSize: int, maxFiles: int)

  datatype Job = Job(codec: Codec, fs: FileSystem, opts: Options)

  datatype BuildError = TooManyFiles | CyclicLink | FileTooLarge | Unreadable | Excluded

  /** The errors that end the capture; after any other one the entry is left out. */
  predicate Fatal(e: BuildError) {
    e == TooManyFiles || e == CyclicLink
  }

  /** Trees decode to what was encoded; links resolve to finitely many places; and a directory that can be
      read lists each name once and has a path that is not too long, unless it resolves. */
  ghost predicate Sane(j: Job) {
    && (forall p :: j.fs.resolve(p).Some? ==> j.fs.resolve(p).value in j.fs.realPaths)
    && (forall p :: j.fs.readDir(p).Some? ==> GoodListing(j.fs.readDir(p).value))
    && (forall p :: j.fs.readDir(p).Some? && j.fs.resolve(p).None? ==> |Components(p)| <= j.fs.maxDepth)
    && (forall es :: j.codec.decode(j.codec.encode(es)) == Some(es))
  }

  ghost predicate GoodListing(des: seq<DirEnt>) {
    forall i, k :: 0 <= i < k < |des| ==> des[i].name != des[k].name
  }

  /** The directory resolves to a place that is being captured. */
  predicate Revisits(j: Job, vis: set<string>, abs: string) {
    j.fs.resolve(abs).Some? && j.fs.resolve(abs).value in vis
  }

  /** The places being captured while the directory is; one that does not resolve is not remembered. */
  function Stack(j: Job, vis: set<string>, abs: string): set<string> {
    if j.fs.resolve(abs).Some? then vis + {j.fs.resolve(abs).value} else vis
  }

  // ---- Why the recursion ends: the places being captured grow, or else the path does ----

  function Room(j: Job, abs: string): nat {
    var n := |Components(abs)|;
    if n <= j.fs.maxDepth then j.fs.maxDepth + 1 - n else 0
  }

  /** More than the room left to what is listed in the directory. */
  function Span(j: Job, abs: string): nat {
    if j.fs.readDir(abs).Some? && j.fs.resolve(abs).None? then Room(j, abs) else j.fs.maxDepth + 2
  }

  lemma Entering(j: Job, vis: set<string>, abs: string)
    requires Sane(j) && vis <= j.fs.realPaths && !Revisits(j, vis, abs) && j.fs.readDir(abs).Some?
    ensures Stack(j, vis, abs) <= j.fs.realPaths
    ensures if j.fs.resolve(abs).Some? then |j.fs.realPaths - Stack(j, vis, abs)| < |j.fs.realPaths - vis|
            else Stack(j, vis, abs) == vis && Span(j, abs) == Room(j, abs)
  {
    hide Components, GoodListing;
    var place := j.fs.resolve(abs);
    if place.Some? {
      assert j.fs.realPaths - vis == j.fs.realPaths - (vis + {place.value}) + {place.value};
    }
  }

  lemma ChildRoom(j: Job, abs: string, name: string)
    requires Sane(j) && GoodName(name)
    ensures Room(j, JoinClean(abs, name)) < Span(j, abs)
  {
    JoinAddsComponent(abs, name);
    hide Components, JoinClean, GoodListing, GoodName;
  }

  function TreeHash(j: Job, es: seq<Entry>): Hash {
    j.codec.digest(j.codec.encode(es))
  }

  /** What is reported about a listed name; nothing when it is excluded. */
  function Look(j: Job, abs: string, rel: string, de: DirEnt): Result<Info, BuildError> {
    if j.opts.exclude(ChildPath(rel, de.name), de.isDir) then Err(Excluded)
    else
      var path := JoinClean(abs, de.name);
      var info := if j.opts.followSymlinks then j.fs.stat(path) else j.fs.lstat(path);
      if info.Some? then Ok(info.value) else Err(Unreadable)
  }

  // ---- What the builder does, step by step ----

  /** The fields of the builder that make up the snapshot. */
  datatype Built = Built(
    trees: map<Hash, Bytes>, files: map<Hash, FileRef>, symlinks: map<Hash, Bytes>,
    fileCount: nat, dirCount: nat, symlinkCount: nat, totalBytes: nat)

  const EMPTY: Built := Built(map[], map[], map[], 0, 0, 0, 0)

  function AddTree(j: Job, st: Built, es: seq<Entry>): Built {
    st.(trees := st.trees[TreeHash(j, es) := j.codec.encode(es)], dirCount := st.dirCount + 1)
  }

  function AddLink(j: Job, st: Built, target: Bytes): Built {
    st.(symlinks := st.symlinks[j.codec.digest(target) := target], symlinkCount := st.symlinkCount + 1)
  }

  function AddFile(st: Built, ref: FileRef): Built {
    st.(files := st.files[ref.hash := ref], fileCount := st.fileCount + 1, totalBytes := st.totalBytes + ref.size)
  }

  ghost function BuildDir(j: Job, vis: set<string>, st: Built, abs: string, rel: string): Result<(Built, Hash), BuildError>
    requires Sane(j) && vis <= j.fs.realPaths
    decreases |j.fs.realPaths - vis|, Room(j, abs), 3, 0
  {
    var listing := j.fs.readDir(abs);
    if Revisits(j, vis, abs) then Err(CyclicLink)
    else if listing.None? then Err(Unreadable)
    else
      Entering(j, vis, abs);
      var (last, es) :- BuildAll(j, Stack(j, vis, abs), st, [], abs, rel, listing.value);
      var sorted := SortByName(es);
      Ok((AddTree(j, last, sorted), TreeHash(j, sorted)))
  }

  /** The names `des` of a directory in turn; `es` are the entries so far. */
  ghost function BuildAll(
    j: Job, vis: set<string>, st: Built, es: seq<Entry>, abs: string, rel: string, des: seq<DirEnt>)
    : (r: Result<(Built, seq<Entry>), BuildError>)
    requires Sane(j) && vis <= j.fs.realPaths
    ensures r.Err? ==> Fatal(r.error)
    decreases |j.fs.realPaths - vis|, Span(j, abs), 2, |des|
  {
    if des == [] then Ok((st, es))
    else
      match BuildChild(j, vis, st, abs, rel, des[0])
      case Ok((next, e)) => BuildAll(j, vis, next, es + [e], abs, rel, des[1..])
      case Err(error) => if Fatal(error) then Err(error) else BuildAll(j, vis, st, es, abs, rel, des[1..])
  }

  ghost function BuildChild(j: Job, vis: set<string>, st: Built, abs: string, rel: string, de: DirEnt)
    : Result<(Built, Entry), BuildError>
    requires Sane(j) && vis <= j.fs.realPaths
    decreases |j.fs.realPaths - vis|, Span(j, abs), 1, 0
  {
    ChildRoom(j, abs, de.name);
    match Look(j, abs, rel, de)
    case Err(error) => Err(error)
    case Ok(info) => BuildOne(j, vis, st, JoinClean(abs, de.name), ChildPath(rel, de.name), de.name, info)
  }

  ghost function BuildOne(j: Job, vis: set<string>, st: Built, abs: string, rel: string, name: string, info: Info)
    : Result<(Built, Entry), BuildError>
    requires Sane(j) && vis <= j.fs.realPaths
    decreases |j.fs.realPaths - vis|, Room(j, abs), 4, 0
  {
    if info.link then
      match j.fs.readlink(abs)
      case None => Err(Unreadable)
      case Some(target) => Ok((AddLink(j, st, target), Entry(name, SYMLINK, info.mode, |target|, j.codec.digest(target))))
    else if info.dir then
      var (next, hash) :- BuildDir(j, vis, st, abs, rel);
      Ok((next, Entry(name, DIRECTORY, info.mode, 0, hash)))
    else if st.fileCount >= j.opts.maxFiles then Err(TooManyFiles)
    else if info.size > j.opts.maxFileSize then Err(FileTooLarge)
    else
      match j.fs.content(abs)
      case None => Err(Unreadable)
      case Some(bytes) =>
        var hash := j.codec.digest(bytes);
        Ok((AddFile(st, FileRef(abs, info.size, hash)), Entry(name, FILE, info.mode, info.size, hash)))
  }

  /** A directory that is entered: what is left to do once it has been listed. */
  lemma DirOf(j: Job, vis: set<string>, st: Built, abs: string, rel: string)
    requires Sane(j) && vis <= j.fs.realPaths
    ensures var listing, r := j.fs.readDir(abs), BuildDir(j, vis, st, abs, rel);
            if Revisits(j, vis, abs) then r == Err(CyclicLink)
            else if listing.None? then r == Err(Unreadable)
            else
              && Stack(j, vis, abs) <= j.fs.realPaths
              && var all := BuildAll(j, Stack(j, vis, abs), st, [], abs, rel, listing.value);
              if all.Err? then r == Err(all.error) && Fatal(all.error)
              else r == Ok((AddTree(j, all.value.0, SortByName(all.value.1)), TreeHash(j, SortByName(all.value.1))))
  {
    if !Revisits(j, vis, abs) && j.fs.readDir(abs).Some? {
      Entering(j, vis, abs);
    }
  }

  lemma AllNext(j: Job, vis: set<string>, st: Built, es: seq<Entry>, abs: string, rel: string, des: seq<DirEnt>, i: nat)
    requires Sane(j) && vis <= j.fs.realPaths && i < |des|
    ensures var all, child := BuildAll(j, vis, st, es, abs, rel, des[i..]), BuildChild(j, vis, st, abs, rel, des[i]);
            && (child.Ok? ==> all == BuildAll(j, vis, child.value.0, es + [child.value.1], abs, rel, des[i + 1..]))
            && (child.Err? && Fatal(child.error) ==> all.Err? && all.error == child.error)
            && (child.Err? && !Fatal(child.error) ==> all == BuildAll(j, vis, st, es, abs, rel, des[i + 1..]))
  {
    assert des[i..][1..] == des[i + 1..];
  }

  lemma AllDone(j: Job, vis: set<string>, st: Built, es: seq<Entry>, abs: string, rel: string)
    requires Sane(j) && vis <= j.fs.realPaths
    ensures BuildAll(j, vis, st, es, abs, rel, []) == Ok((st, es))
  {
  }

  class Builder {
    const job: Job
    var trees: map<Hash, Bytes>
    var files: map<Hash, FileRef>
    var symlinks: map<Hash, Bytes>
    var visited: set<string>
    var fileCount: nat
    var dirCount: nat
    var symlinkCount: nat
    var totalBytes: nat

    ghost function State(): Built
      reads this
    {
      Built(trees, files, symlinks, fileCount, dirCount, symlinkCount, totalBytes)
    }

    constructor (job: Job)
      ensures this.job == job && State() == EMPTY && visited == {}
    {
      this.job := job;
      trees, files, symlinks, visited := map[], map[], map[], {};
      fileCount, dirCount, symlinkCount, totalBytes := 0, 0, 0, 0;
    }

    method BuildTree(abs: string, rel: string) returns (r: Result<Hash, BuildError>)
      requires Sane(job) && visited <= job.fs.realPaths
      modifies this
      ensures visited == old(visited)
      ensures match BuildDir(job, old(visited), old(State()), abs, rel)
              case Ok((last, hash)) => r == Ok(hash) && State() == last
              case Err(error) => r == Err(error) && (!Fatal(error) ==> State() == old(State()))
      decreases |job.fs.realPaths - visited|, Room(job, abs), 3, 0
    {
      DirOf(job, visited, State(), abs, rel);
      if !Revisits(job, visited, abs) && job.fs.readDir(abs).Some? {
        Entering(job, visited, abs);
      }
      hide BuildDir, BuildAll, BuildChild, BuildOne, Sane, Fatal, SortByName, AddTree, TreeHash, JoinClean, ChildPath, Look, Room, Span;
      var place := job.fs.resolve(abs);
      if place.Some? {
        if place.value in visited {
          return Err(CyclicLink);
        }
        visited := visited + {place.value};
      }
      ghost var stack := visited;
      assert stack == Stack(job, old(visited), abs);
      assert old(visited) == if place.Some? then stack - {place.value} else stack;
      hide Stack, Revisits;
      var listing := job.fs.readDir(abs);
      if listing.None? {
        Leave(place);
        return Err(Unreadable);
      }
      var dirEntries := listing.value;
      var entries := [];
      ghost var target := BuildAll(job, stack, State(), [], abs, rel, dirEntries);
      assert dirEntries[0..] == dirEntries;
      for i := 0 to |dirEntries|
        invariant visited == stack
        invariant BuildAll(job, stack, State(), entries, abs, rel, dirEntries[i..]) == target
      {
        var de := dirEntries[i];
        AllNext(job, visited, State(), entries, abs, rel, dirEntries, i);
        var built := BuildListed(abs, rel, de);
        if built.Err? {
          if Fatal(built.error) {
            Leave(place);
            return Err(built.error);
          }
          continue;
        }
        entries := entries + [built.value];
      }
      assert dirEntries[|dirEntries|..] == [];
      AllDone(job, visited, State(), entries, abs, rel);
      entries := SortByName(entries);
      var hash := StoreTree(entries);
      Leave(place);
      r := Ok(hash);
    }

    /** Run on every return from a directory that resolves: its place is no longer being captured. */
    method Leave(place: Option<string>)
      modifies `visited
      ensures visited == if place.Some? then old(visited) - {place.value} else old(visited)
    {
      if place.Some? {
        visited := visited - {place.value};
      }
    }

    /** One name of a directory listing: the checks made before its entry is built. */
    method BuildListed(abs: string, rel: string, de: DirEnt) returns (r: Result<Entry, BuildError>)
      requires Sane(job) && visited <= job.fs.realPaths
      modifies this
      ensures visited == old(visited)
      ensures match BuildChild(job, old(visited), old(State()), abs, rel, de)
              case Ok((last, e)) => r == Ok(e) && State() == last
              case Err(error) => r == Err(error) && (!Fatal(error) ==> State() == old(State()))
      decreases |job.fs.realPaths - visited|, Span(job, abs), 1, 0
    {
      ChildRoom(job, abs, de.name);
      hide BuildOne, Sane, JoinClean, ChildPath, Room, Span;
      var look := Look(job, abs, rel, de);
      if look.Err? {
        return Err(look.error);
      }
      r := BuildEntry(JoinClean(abs, de.name), ChildPath(rel, de.name), de.name, look.value);
    }

    method StoreTree(entries: seq<Entry>) returns (hash: Hash)
      modifies this
      ensures visited == old(visited)
      ensures hash == TreeHash(job, entries) && State() == AddTree(job, old(State()), entries)
    {
      var bytes := job.codec.encode(entries);
      hash := job.codec.digest(bytes);
      trees := trees[hash := bytes];
      dirCount := dirCount + 1;
    }

    method BuildEntry(abs: string, rel: string, name: string, info: Info) returns (r: Result<Entry, BuildError>)
      requires Sane(job) && visited <= job.fs.realPaths
      modifies this
      ensures visited == old(visited)
      ensures match BuildOne(job, old(visited), old(State()), abs, rel, name, info)
              case Ok((last, e)) => r == Ok(e) && State() == last
              case Err(error) => r == Err(error) && (!Fatal(error) ==> State() == old(State()))
      decreases |job.fs.realPaths - visited|, Room(job, abs), 4, 0
    {
      if info.link {
        var target := job.fs.readlink(abs);
        if target.None? {
          return Err(Unreadable);
        }
        var hash := job.codec.digest(target.value);
        symlinkCount := symlinkCount + 1;
        symlinks := symlinks[hash := target.value];
        return Ok(Entry(name, SYMLINK, info.mode, |target.value|, hash));
      }
      if info.dir {
        var dirHash := BuildTree(abs, rel);
        if dirHash.Err? {
          return Err(dirHash.error);
        }
        return Ok(Entry(name, DIRECTORY, info.mode, 0, dirHash.value));
      }
      if fileCount >= job.opts.maxFiles {
        return Err(TooManyFiles);
      }
      if info.size > job.opts.maxFileSize {
        return Err(FileTooLarge);
      }
      var content := job.fs.content(abs);
      if content.None? {
        return Err(Unreadable);
      }
      var hash := job.codec.digest(content.value);
      files := files[hash := FileRef(abs, info.size, hash)];
      fileCount := fileCount + 1;
      totalBytes := totalBytes + info.size;
      r := Ok(Entry(name, FILE, info.mode, info.size, hash));
    }
  }

  // ---- Capturing a root directory ----

  datatype CaptureError = NoSuchRoot | RootNotDirectory | Failed(error: BuildError)

  function SnapshotOf(st: Built, root: Hash): Snapshot {
    Snapshot(root, st.trees, st.files, st.symlinks)
  }

  method Capture(job: Job, root: string) returns (r: Result<(Snapshot, Built), CaptureError>)
    requires Sane(job)
    ensures job.fs.stat(root).None? <==> r == Err(NoSuchRoot)
    ensures job.fs.stat(root).Some? && !job.fs.stat(root).value.dir <==> r == Err(RootNotDirectory)
    ensures job.fs.stat(root).Some? && job.fs.stat(root).value.dir ==>
              match BuildDir(job, {}, EMPTY, root, "")
              case Ok((st, hash)) => r == Ok((SnapshotOf(st, hash), st))
              case Err(error) => r == Err(Failed(error))
  {
    var info := job.fs.stat(root);
    if info.None? {
      return Err(NoSuchRoot);
    }
    if !info.value.dir {
      return Err(RootNotDirectory);
    }
    var b := new Builder(job);
    var rootHash := b.BuildTree(root, "");
    if rootHash.Err? {
      return Err(Failed(rootHash.error));
    }
    ghost var st := b.State();
    r := Ok((Snapshot(rootHash.value, b.trees, b.files, b.symlinks),
             Built(b.trees, b.files, b.symlinks, b.fileCount, b.dirCount, b.symlinkCount, b.totalBytes)));
  }
}

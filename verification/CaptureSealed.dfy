/** A capture is closed: what its trees refer to is there, under the digest of its content. */
module CaptureSealed {
  import opened Basics
  import opened Paths
  import opened Snapshots
  import opened NameOrder
  import opened Captures
  import opened CaptureMeaning
  import opened CaptureOrder

  /** The content of an entry is in the map that its kind says. */
  predicate ClosedEntry(st: Built, e: Entry) {
    if e.kind == FILE then e.hash in st.files
    else if e.kind == DIRECTORY then e.hash in st.trees
    else e.kind == SYMLINK && e.hash in st.symlinks
  }

  ghost predicate AllClosed(st: Built, es: seq<Entry>) {
    forall e :: e in es ==> ClosedEntry(st, e)
  }

  ghost predicate GoodNames(es: seq<Entry>) {
    DistinctNames(es) && forall e :: e in es ==> GoodName(e.name)
  }

  ghost predicate GoodTree(j: Job, st: Built, h: Hash, bytes: Bytes) {
    && j.codec.digest(bytes) == h && j.codec.decode(bytes).Some?
    && AllClosed(st, j.codec.decode(bytes).value) && GoodNames(j.codec.decode(bytes).value)
  }

  /** A file reference leads to a file with that content. */
  ghost predicate GoodFile(j: Job, h: Hash, ref: FileRef) {
    ref.hash == h && j.fs.content(ref.path).Some? && j.codec.digest(j.fs.content(ref.path).value) == h
  }

  ghost predicate Sealed(j: Job, st: Built) {
    && (forall h :: h in st.trees ==> GoodTree(j, st, h, st.trees[h]))
    && (forall h :: h in st.files ==> GoodFile(j, h, st.files[h]))
    && (forall h :: h in st.symlinks ==> j.codec.digest(st.symlinks[h]) == h)
  }

  ghost predicate Extends(st: Built, next: Built) {
    st.trees.Keys <= next.trees.Keys && st.files.Keys <= next.files.Keys && st.symlinks.Keys <= next.symlinks.Keys
  }

  lemma ClosedStays(st: Built, next: Built, es: seq<Entry>)
    requires Extends(st, next) && AllClosed(st, es)
    ensures AllClosed(next, es)
  {
    forall e | e in es ensures ClosedEntry(next, e) {
      assert ClosedEntry(st, e);
    }
  }

  lemma ExtendsThen(a: Built, b: Built, c: Built)
    requires Extends(a, b) && Extends(b, c)
    ensures Extends(a, c)
  {
  }

  lemma TreesStay(j: Job, st: Built, next: Built)
    requires Sealed(j, st) && Extends(st, next)
    ensures forall h :: h in st.trees ==> GoodTree(j, next, h, st.trees[h])
  {
    hide GoodNames, AllClosed, Extends;
    forall h | h in st.trees ensures GoodTree(j, next, h, st.trees[h]) {
      assert GoodTree(j, st, h, st.trees[h]);
      ClosedStays(st, next, j.codec.decode(st.trees[h]).value);
    }
  }

  lemma AddTreeSeals(j: Job, st: Built, es: seq<Entry>)
    requires Sane(j) && Sealed(j, st) && AllClosed(st, es) && GoodNames(es)
    ensures Sealed(j, AddTree(j, st, es)) && Extends(st, AddTree(j, st, es)) && TreeHash(j, es) in AddTree(j, st, es).trees
  {
    var next := AddTree(j, st, es);
    TreesStay(j, st, next);
    ClosedStays(st, next, es);
    assert GoodTree(j, next, TreeHash(j, es), j.codec.encode(es));
    hide GoodTree, GoodFile;
  }

  lemma AddFileSeals(j: Job, st: Built, ref: FileRef)
    requires Sealed(j, st) && GoodFile(j, ref.hash, ref)
    ensures Sealed(j, AddFile(st, ref)) && Extends(st, AddFile(st, ref))
  {
    TreesStay(j, st, AddFile(st, ref));
    hide GoodTree, GoodFile;
  }

  lemma AddLinkSeals(j: Job, st: Built, target: Bytes)
    requires Sealed(j, st)
    ensures Sealed(j, AddLink(j, st, target)) && Extends(st, AddLink(j, st, target))
  {
    TreesStay(j, st, AddLink(j, st, target));
    hide GoodTree, GoodFile;
  }

  lemma {:induction false} DirSeals(j: Job, vis: set<string>, st: Built, abs: string, rel: string)
    requires Sane(j) && vis <= j.fs.realPaths && Sealed(j, st)
    ensures var b := BuildDir(j, vis, st, abs, rel);
            b.Ok? ==> Sealed(j, b.value.0) && Extends(st, b.value.0) && b.value.1 in b.value.0.trees
    decreases |j.fs.realPaths - vis|, Room(j, abs), 3, 0
  {
    var listing := j.fs.readDir(abs);
    assert listing.Some? ==> GoodListing(listing.value);
    hide *;
    DirOf(j, vis, st, abs, rel);
    if BuildDir(j, vis, st, abs, rel).Ok? {
      var now := Stack(j, vis, abs);
      Entering(j, vis, abs);
      NothingClosed(st);
      AllSeals(j, now, st, [], abs, rel, listing.value);
      var (last, es) := BuildAll(j, now, st, [], abs, rel, listing.value).value;
      BuiltNames(j, now, st, abs, rel, listing.value);
      SortClosed(last, es);
      AddTreeSeals(j, last, SortByName(es));
      ExtendsThen(st, last, AddTree(j, last, SortByName(es)));
    }
  }

  lemma NothingClosed(st: Built)
    ensures AllClosed(st, [])
  {
  }

  lemma SortClosed(st: Built, es: seq<Entry>)
    requires AllClosed(st, es) && GoodNames(es)
    ensures AllClosed(st, SortByName(es)) && GoodNames(SortByName(es))
  {
    SortIsSorted(es);
    OrderedIsDistinct(SortByName(es));
    hide SortByName, GoodName, ClosedEntry, InOrder, DistinctNames;
  }

  lemma BuiltNames(j: Job, vis: set<string>, st: Built, abs: string, rel: string, des: seq<DirEnt>)
    requires Sane(j) && vis <= j.fs.realPaths && GoodListing(des) && BuildAll(j, vis, st, [], abs, rel, des).Ok?
    ensures GoodNames(BuildAll(j, vis, st, [], abs, rel, des).value.1)
  {
    hide BuildAll, KeptEntries, Sane, GoodListing, GoodName;
    AllMeans(j, vis, st, [], abs, rel, des);
    KeptNames(j, vis, abs, rel, des);
    var es := KeptEntries(j, vis, abs, rel, des).value;
    assert [] + es == es;
  }

  lemma {:induction false} AllSeals(
    j: Job, vis: set<string>, st: Built, es: seq<Entry>, abs: string, rel: string, des: seq<DirEnt>)
    requires Sane(j) && vis <= j.fs.realPaths && Sealed(j, st) && AllClosed(st, es)
    ensures var b := BuildAll(j, vis, st, es, abs, rel, des);
            b.Ok? ==> Sealed(j, b.value.0) && Extends(st, b.value.0) && AllClosed(b.value.0, b.value.1)
    decreases |j.fs.realPaths - vis|, Span(j, abs), 2, |des|
  {
    if des == [] {
      AllDone(j, vis, st, es, abs, rel);
      assert Extends(st, st);
      hide *;
    } else {
      hide *;
      assert des[0..] == des;
      AllNext(j, vis, st, es, abs, rel, des, 0);
      ChildSeals(j, vis, st, abs, rel, des[0]);
      var b := BuildChild(j, vis, st, abs, rel, des[0]);
      if b.Ok? {
        var (next, e) := b.value;
        ClosedNext(st, next, es, e);
        AllSeals(j, vis, next, es + [e], abs, rel, des[1..]);
        var all := BuildAll(j, vis, next, es + [e], abs, rel, des[1..]);
        if all.Ok? {
          ExtendsThen(st, next, all.value.0);
        }
      } else if !Fatal(b.error) {
        AllSeals(j, vis, st, es, abs, rel, des[1..]);
      }
    }
  }

  lemma ClosedNext(st: Built, next: Built, es: seq<Entry>, e: Entry)
    requires Extends(st, next) && AllClosed(st, es) && ClosedEntry(next, e)
    ensures AllClosed(next, es + [e])
  {
    ClosedStays(st, next, es);
    hide ClosedEntry;
  }

  lemma {:induction false} ChildSeals(j: Job, vis: set<string>, st: Built, abs: string, rel: string, de: DirEnt)
    requires Sane(j) && vis <= j.fs.realPaths && Sealed(j, st)
    ensures var b := BuildChild(j, vis, st, abs, rel, de);
            b.Ok? ==> Sealed(j, b.value.0) && Extends(st, b.value.0) && ClosedEntry(b.value.0, b.value.1)
    decreases |j.fs.realPaths - vis|, Span(j, abs), 1, 0
  {
    ChildRoom(j, abs, de.name);
    hide JoinClean, ChildPath, Look, Sane, BuildDir, Sealed, Extends, Room, Span;
    var look, path := Look(j, abs, rel, de), JoinClean(abs, de.name);
    if look.Ok? && BuildChild(j, vis, st, abs, rel, de).Ok? {
      var info := look.value;
      assert BuildOne(j, vis, st, path, ChildPath(rel, de.name), de.name, info).Ok?;
      if info.link {
        AddLinkSeals(j, st, j.fs.readlink(path).value);
      } else if info.dir {
        DirSeals(j, vis, st, path, ChildPath(rel, de.name));
      } else {
        AddFileSeals(j, st, FileRef(path, info.size, j.codec.digest(j.fs.content(path).value)));
      }
    }
  }

  /** A successful capture has every entry's content under the entry's hash, every tree and link under its
      digest, good and unique names, a reference to a file with the right content, and no more files than
      the limit allows; so walking it and looking paths up cannot miss anything. */
  lemma CaptureIsClosed(j: Job, root: string)
    requires Sane(j) && BuildDir(j, {}, EMPTY, root, "").Ok?
    ensures var (st, hash) := BuildDir(j, {}, EMPTY, root, "").value;
            && Sealed(j, st) && hash in st.trees
            && WellFormed(j.codec, SnapshotOf(st, hash))
            && st.fileCount <= Max(0, j.opts.maxFiles)
  {
    assert Sealed(j, EMPTY);
    DirSeals(j, {}, EMPTY, root, "");
    DirMeans(j, {}, EMPTY, root, "");
    hide BuildDir, Entries, Listing, Sane, Sealed, WellFormed;
    var (st, hash) := BuildDir(j, {}, EMPTY, root, "").value;
    SealedIsWellFormed(j, st, hash);
  }

  lemma SealedIsWellFormed(j: Job, st: Built, hash: Hash)
    requires Sealed(j, st) && hash in st.trees
    ensures WellFormed(j.codec, SnapshotOf(st, hash))
  {
    hide GoodName;
    var s := SnapshotOf(st, hash);
    forall h | h in s.trees ensures j.codec.decode(s.trees[h]).Some? && GoodEntries(s, j.codec.decode(s.trees[h]).value) {
      assert GoodTree(j, st, h, st.trees[h]);
      assert forall e :: e in j.codec.decode(s.trees[h]).value ==> ClosedEntry(st, e);
    }
  }
}

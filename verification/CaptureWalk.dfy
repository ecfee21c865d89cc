/** Walking, looking up and comparing captures gives back the files that were captured. */
module CaptureWalk {
  import opened Basics
  import opened Paths
  import opened Snapshots
  import opened NameOrder
  import opened Captures
  import opened CaptureMeaning
  import opened CaptureOrder
  import opened CaptureSealed
  import opened SnapshotDiffs

  /** The serialised trees of a directory and of all directories below it are among `blobs`. */
  ghost predicate TreesWithin(j: Job, blobs: set<Bytes>, vis: set<string>, abs: string, rel: string)
    requires Sane(j) && vis <= j.fs.realPaths
    decreases |j.fs.realPaths - vis|, Room(j, abs), 3, 0
  {
    var es := Entries(j, vis, abs, rel);
    es.Ok? ==>
      && j.codec.encode(es.value) in blobs
      && (Entering(j, vis, abs);
          AllWithin(j, blobs, Stack(j, vis, abs), abs, rel, es.value))
  }

  ghost predicate AllWithin(j: Job, blobs: set<Bytes>, vis: set<string>, abs: string, rel: string, es: seq<Entry>)
    requires Sane(j) && vis <= j.fs.realPaths
    decreases |j.fs.realPaths - vis|, Span(j, abs), 2, |es|
  {
    es != [] ==> OneWithin(j, blobs, vis, abs, rel, es[0]) && AllWithin(j, blobs, vis, abs, rel, es[1..])
  }

  ghost predicate OneWithin(j: Job, blobs: set<Bytes>, vis: set<string>, abs: string, rel: string, e: Entry)
    requires Sane(j) && vis <= j.fs.realPaths
    decreases |j.fs.realPaths - vis|, Span(j, abs), 1, 0
  {
    IsDirectory(e) ==>
      (ChildRoom(j, abs, e.name);
       TreesWithin(j, blobs, vis, JoinClean(abs, e.name), ChildPath(rel, e.name)))
  }

  lemma {:induction false} AllWithinIs(j: Job, blobs: set<Bytes>, vis: set<string>, abs: string, rel: string, es: seq<Entry>)
    requires Sane(j) && vis <= j.fs.realPaths
    ensures AllWithin(j, blobs, vis, abs, rel, es) <==> forall e :: e in es ==> OneWithin(j, blobs, vis, abs, rel, e)
  {
    hide Sane, OneWithin;
    if es != [] {
      var rest := es[1..];
      AllWithinIs(j, blobs, vis, abs, rel, rest);
      AllWithinFirst(j, blobs, vis, abs, rel, es);
      hide *;
      assert es[0] in es && forall e :: e in es <==> e == es[0] || e in rest;
    }
  }

  lemma AllWithinFirst(j: Job, blobs: set<Bytes>, vis: set<string>, abs: string, rel: string, es: seq<Entry>)
    requires Sane(j) && vis <= j.fs.realPaths && es != []
    ensures AllWithin(j, blobs, vis, abs, rel, es)
            <==> OneWithin(j, blobs, vis, abs, rel, es[0]) && AllWithin(j, blobs, vis, abs, rel, es[1..])
  {
  }

  lemma WithinOf(j: Job, blobs: set<Bytes>, vis: set<string>, abs: string, rel: string)
    requires Sane(j) && vis <= j.fs.realPaths && Entries(j, vis, abs, rel).Ok?
    ensures var es := Entries(j, vis, abs, rel).value;
            && !Revisits(j, vis, abs) && j.fs.readDir(abs).Some? && Stack(j, vis, abs) <= j.fs.realPaths
            && Listing(j, vis, abs, rel) == Below(j, Stack(j, vis, abs), abs, rel, es)
            && (TreesWithin(j, blobs, vis, abs, rel)
                <==> j.codec.encode(es) in blobs && AllWithin(j, blobs, Stack(j, vis, abs), abs, rel, es))
  {
    EntriesOf(j, vis, abs, rel);
    hide KeptEntries, Below, AllWithin, Stack, Revisits;
  }

  lemma {:induction false} WithinMore(j: Job, a: set<Bytes>, b: set<Bytes>, vis: set<string>, abs: string, rel: string)
    requires Sane(j) && vis <= j.fs.realPaths && a <= b && TreesWithin(j, a, vis, abs, rel)
    ensures TreesWithin(j, b, vis, abs, rel)
    decreases |j.fs.realPaths - vis|, Room(j, abs), 3, 0
  {
    if Entries(j, vis, abs, rel).Ok? {
      hide *;
      WithinOf(j, a, vis, abs, rel);
      WithinOf(j, b, vis, abs, rel);
      Entering(j, vis, abs);
      AllWithinMore(j, a, b, Stack(j, vis, abs), abs, rel, Entries(j, vis, abs, rel).value);
    }
  }

  lemma {:induction false} AllWithinMore(
    j: Job, a: set<Bytes>, b: set<Bytes>, vis: set<string>, abs: string, rel: string, es: seq<Entry>)
    requires Sane(j) && vis <= j.fs.realPaths && a <= b && AllWithin(j, a, vis, abs, rel, es)
    ensures AllWithin(j, b, vis, abs, rel, es)
    decreases |j.fs.realPaths - vis|, Span(j, abs), 2, |es|
  {
    hide Sane, TreesWithin, JoinClean, ChildPath, Room, Span;
    if es != [] {
      assert OneWithin(j, a, vis, abs, rel, es[0]);
      if IsDirectory(es[0]) {
        ChildRoom(j, abs, es[0].name);
        WithinMore(j, a, b, vis, JoinClean(abs, es[0].name), ChildPath(rel, es[0].name));
      }
      AllWithinMore(j, a, b, vis, abs, rel, es[1..]);
    }
  }

  // ---- Without colliding digests nothing stored is overwritten ----

  /** The stored trees are among `blobs`, and every tree comes after the trees it refers to. */
  ghost predicate Filled(j: Job, blobs: set<Bytes>, st: Built, rank: Hash -> nat) {
    forall h :: h in st.trees ==> st.trees[h] in blobs && rank(h) < st.dirCount && RanksDown(j, rank, rank(h), st.trees[h])
  }

  ghost predicate RanksDown(j: Job, rank: Hash -> nat, top: nat, bytes: Bytes) {
    var es := j.codec.decode(bytes);
    es.Some? ==> forall e :: e in es.value && e.kind == DIRECTORY ==> rank(e.hash) < top
  }

  ghost predicate Stays(st: Built, next: Built) {
    st.dirCount <= next.dirCount && forall h :: h in st.trees ==> h in next.trees && next.trees[h] == st.trees[h]
  }

  lemma StaysThen(a: Built, b: Built, c: Built)
    requires Stays(a, b) && Stays(b, c)
    ensures Stays(a, c)
  {
  }

  lemma StaysValues(a: Built, b: Built)
    requires Stays(a, b)
    ensures a.trees.Values <= b.trees.Values
  {
    forall v | v in a.trees.Values ensures v in b.trees.Values {
      var h :| h in a.trees && a.trees[h] == v;
      assert b.trees[h] == v;
    }
  }

  ghost function Ranked(rank: Hash -> nat, h: Hash, n: nat): Hash -> nat {
    (x: Hash) => if x == h then n else rank(x)
  }

  /** Storing a tree whose directories are stored keeps the order; a tree that is there already stays. */
  lemma AddTreeFills(j: Job, blobs: set<Bytes>, st: Built, rank: Hash -> nat, es: seq<Entry>) returns (next: Hash -> nat)
    requires Sane(j) && CollisionFree(j.codec.digest, blobs) && j.codec.encode(es) in blobs
    requires Sealed(j, st) && Filled(j, blobs, st, rank) && AllClosed(st, es)
    ensures Filled(j, blobs, AddTree(j, st, es), next) && Stays(st, AddTree(j, st, es))
    ensures j.codec.encode(es) in AddTree(j, st, es).trees.Values
  {
    var h, bytes, last := TreeHash(j, es), j.codec.encode(es), AddTree(j, st, es);
    assert last.trees[h] == bytes;
    if h in st.trees {
      assert GoodTree(j, st, h, st.trees[h]);
      assert st.trees[h] == bytes;
      next := rank;
    } else {
      next := Ranked(rank, h, st.dirCount);
      forall g | g in last.trees
        ensures last.trees[g] in blobs && next(g) < last.dirCount && RanksDown(j, next, next(g), last.trees[g])
      {
        if g != h {
          OldTreeRanks(j, blobs, st, rank, h, g);
        } else {
          NewTreeRanks(j, blobs, st, rank, h, es);
        }
      }
    }
  }

  lemma OldTreeRanks(j: Job, blobs: set<Bytes>, st: Built, rank: Hash -> nat, h: Hash, g: Hash)
    requires Sealed(j, st) && Filled(j, blobs, st, rank) && h !in st.trees && g in st.trees
    ensures RanksDown(j, Ranked(rank, h, st.dirCount), rank(g), st.trees[g])
  {
    assert GoodTree(j, st, g, st.trees[g]);
    assert RanksDown(j, rank, rank(g), st.trees[g]);
    var es := j.codec.decode(st.trees[g]).value;
    forall e | e in es && e.kind == DIRECTORY ensures e.hash != h {
      assert ClosedEntry(st, e);
    }
  }

  lemma NewTreeRanks(j: Job, blobs: set<Bytes>, st: Built, rank: Hash -> nat, h: Hash, es: seq<Entry>)
    requires Sane(j) && Filled(j, blobs, st, rank) && AllClosed(st, es) && h !in st.trees
    ensures RanksDown(j, Ranked(rank, h, st.dirCount), st.dirCount, j.codec.encode(es))
  {
    assert j.codec.decode(j.codec.encode(es)) == Some(es);
    forall e | e in es && e.kind == DIRECTORY ensures e.hash != h && rank(e.hash) < st.dirCount {
      assert ClosedEntry(st, e);
    }
  }

  /** Building a directory stores the trees of all directories in it. */
  lemma {:induction false} DirFills(
    j: Job, blobs: set<Bytes>, vis: set<string>, st: Built, rank: Hash -> nat, abs: string, rel: string)
    returns (next: Hash -> nat)
    requires Sane(j) && vis <= j.fs.realPaths && CollisionFree(j.codec.digest, blobs)
    requires Sealed(j, st) && Filled(j, blobs, st, rank)
    requires BuildDir(j, vis, st, abs, rel).Ok? && TreesWithin(j, blobs, vis, abs, rel)
    ensures var last := BuildDir(j, vis, st, abs, rel).value.0;
            Filled(j, blobs, last, next) && Stays(st, last) && TreesWithin(j, last.trees.Values, vis, abs, rel)
    decreases |j.fs.realPaths - vis|, Room(j, abs), 3, 0
  {
    var listing := j.fs.readDir(abs);
    assert listing.Some? ==> GoodListing(listing.value);
    hide *;
    DirOf(j, vis, st, abs, rel);
    DirMeans(j, vis, st, abs, rel);
    AgreeOk(j, st, BuildDir(j, vis, st, abs, rel), Entries(j, vis, abs, rel), WithSelf(Listing(j, vis, abs, rel)),
            KeepsDir(j, vis, abs, rel));
    var now := Stack(j, vis, abs);
    Entering(j, vis, abs);
    var (last, es) := BuildAll(j, now, st, [], abs, rel, listing.value).value;
    var done := AddTree(j, last, SortByName(es));
    BuiltNames(j, now, st, abs, rel, listing.value);
    BuiltEntries(j, vis, st, abs, rel);
    WithinOf(j, blobs, vis, abs, rel);
    SortWithin(j, blobs, now, abs, rel, es);
    NothingClosed(st);
    NothingWithin(j, st.trees.Values, now, abs, rel);
    AllSeals(j, now, st, [], abs, rel, listing.value);
    SortClosed(last, es);
    var mid := AllFills(j, blobs, now, st, rank, [], abs, rel, listing.value);
    next := AddTreeFills(j, blobs, last, mid, SortByName(es));
    StaysThen(st, last, done);
    StaysValues(last, done);
    SortWithin(j, last.trees.Values, now, abs, rel, es);
    AllWithinMore(j, last.trees.Values, done.trees.Values, now, abs, rel, SortByName(es));
    WithinOf(j, done.trees.Values, vis, abs, rel);
  }

  lemma AgreeOk(
    j: Job, st: Built, b: Result<(Built, Hash), BuildError>, t: Result<seq<Entry>, BuildError>, more: Totals, keeps: bool)
    requires Agree(j, st, b, HashOf(j, t), more, keeps) && b.Ok?
    ensures t.Ok? && b.value.1 == TreeHash(j, t.value)
  {
  }

  /** What was built is what there is, in the order of the listing. */
  lemma BuiltEntries(j: Job, vis: set<string>, st: Built, abs: string, rel: string)
    requires Sane(j) && vis <= j.fs.realPaths && BuildDir(j, vis, st, abs, rel).Ok?
    ensures var all := BuildAll(j, Stack(j, vis, abs), st, [], abs, rel, j.fs.readDir(abs).value);
            all.Ok? && Entries(j, vis, abs, rel) == Ok(SortByName(all.value.1))
  {
    hide BuildDir, BuildAll, Entries, KeptEntries, SortByName, Listing, Below;
    DirOf(j, vis, st, abs, rel);
    EntriesOf(j, vis, abs, rel);
    var now := Stack(j, vis, abs);
    AllMeans(j, now, st, [], abs, rel, j.fs.readDir(abs).value);
    var kept := KeptEntries(j, now, abs, rel, j.fs.readDir(abs).value);
    assert kept.Ok? ==> [] + kept.value == kept.value;
  }

  lemma SortWithin(j: Job, blobs: set<Bytes>, vis: set<string>, abs: string, rel: string, es: seq<Entry>)
    requires Sane(j) && vis <= j.fs.realPaths && GoodNames(es)
    ensures AllWithin(j, blobs, vis, abs, rel, SortByName(es)) <==> AllWithin(j, blobs, vis, abs, rel, es)
  {
    AllWithinIs(j, blobs, vis, abs, rel, es);
    AllWithinIs(j, blobs, vis, abs, rel, SortByName(es));
    SortIsSorted(es);
    hide AllWithin, OneWithin, SortByName, Sane;
  }

  lemma NothingWithin(j: Job, blobs: set<Bytes>, vis: set<string>, abs: string, rel: string)
    requires Sane(j) && vis <= j.fs.realPaths
    ensures AllWithin(j, blobs, vis, abs, rel, [])
  {
  }

  /** One more entry whose trees are stored. */
  lemma WithinNext(j: Job, a: set<Bytes>, b: set<Bytes>, vis: set<string>, abs: string, rel: string, es: seq<Entry>, e: Entry)
    requires Sane(j) && vis <= j.fs.realPaths && a <= b
    requires AllWithin(j, a, vis, abs, rel, es) && OneWithin(j, b, vis, abs, rel, e)
    ensures AllWithin(j, b, vis, abs, rel, es + [e])
  {
    AllWithinMore(j, a, b, vis, abs, rel, es);
    AllWithinIs(j, b, vis, abs, rel, es);
    AllWithinIs(j, b, vis, abs, rel, es + [e]);
    hide *;
  }

  lemma BuiltIsIn(j: Job, vis: set<string>, st: Built, es: seq<Entry>, e: Entry, abs: string, rel: string, des: seq<DirEnt>)
    requires Sane(j) && vis <= j.fs.realPaths && BuildAll(j, vis, st, es + [e], abs, rel, des).Ok?
    ensures e in BuildAll(j, vis, st, es + [e], abs, rel, des).value.1
  {
    hide BuildAll, KeptEntries, Sane;
    AllMeans(j, vis, st, es + [e], abs, rel, des);
    var all, kept := BuildAll(j, vis, st, es + [e], abs, rel, des).value.1, KeptEntries(j, vis, abs, rel, des).value;
    assert all == es + [e] + kept;
    assert all[|es|] == e;
  }

  lemma {:induction false} AllFills(
    j: Job, blobs: set<Bytes>, vis: set<string>, st: Built, rank: Hash -> nat, es: seq<Entry>, abs: string, rel: string,
    des: seq<DirEnt>) returns (next: Hash -> nat)
    requires Sane(j) && vis <= j.fs.realPaths && CollisionFree(j.codec.digest, blobs)
    requires Sealed(j, st) && Filled(j, blobs, st, rank) && AllWithin(j, st.trees.Values, vis, abs, rel, es)
    requires BuildAll(j, vis, st, es, abs, rel, des).Ok?
    requires AllWithin(j, blobs, vis, abs, rel, BuildAll(j, vis, st, es, abs, rel, des).value.1)
    ensures var (last, all) := BuildAll(j, vis, st, es, abs, rel, des).value;
            Filled(j, blobs, last, next) && Stays(st, last) && AllWithin(j, last.trees.Values, vis, abs, rel, all)
    decreases |j.fs.realPaths - vis|, Span(j, abs), 2, |des|
  {
    if des == [] {
      AllDone(j, vis, st, es, abs, rel);
      assert Stays(st, st);
      hide *;
      next := rank;
    } else {
      hide *;
      assert des[0..] == des;
      AllNext(j, vis, st, es, abs, rel, des, 0);
      var child, all := BuildChild(j, vis, st, abs, rel, des[0]), BuildAll(j, vis, st, es, abs, rel, des);
      if child.Ok? {
        var (mid, e) := child.value;
        BuiltIsIn(j, vis, mid, es, e, abs, rel, des[1..]);
        AllWithinIs(j, blobs, vis, abs, rel, all.value.1);
        var midRank := ChildFills(j, blobs, vis, st, rank, abs, rel, des[0]);
        ChildSeals(j, vis, st, abs, rel, des[0]);
        StaysValues(st, mid);
        WithinNext(j, st.trees.Values, mid.trees.Values, vis, abs, rel, es, e);
        next := AllFills(j, blobs, vis, mid, midRank, es + [e], abs, rel, des[1..]);
        StaysThen(st, mid, all.value.0);
      } else {
        next := AllFills(j, blobs, vis, st, rank, es, abs, rel, des[1..]);
      }
    }
  }

  lemma {:induction false} ChildFills(
    j: Job, blobs: set<Bytes>, vis: set<string>, st: Built, rank: Hash -> nat, abs: string, rel: string, de: DirEnt)
    returns (next: Hash -> nat)
    requires Sane(j) && vis <= j.fs.realPaths && CollisionFree(j.codec.digest, blobs)
    requires Sealed(j, st) && Filled(j, blobs, st, rank)
    requires BuildChild(j, vis, st, abs, rel, de).Ok?
    requires OneWithin(j, blobs, vis, abs, rel, BuildChild(j, vis, st, abs, rel, de).value.1)
    ensures var (last, e) := BuildChild(j, vis, st, abs, rel, de).value;
            Filled(j, blobs, last, next) && Stays(st, last) && OneWithin(j, last.trees.Values, vis, abs, rel, e)
    decreases |j.fs.realPaths - vis|, Span(j, abs), 1, 0
  {
    hide *;
    ChildIs(j, vis, st, abs, rel, de);
    var (last, e) := BuildChild(j, vis, st, abs, rel, de).value;
    DirectoryIs(e);
    OneWithinIs(j, blobs, vis, abs, rel, e);
    OneWithinIs(j, last.trees.Values, vis, abs, rel, e);
    if LeadsDown(j, abs, rel, de) {
      ChildRoom(j, abs, de.name);
      next := DirFills(j, blobs, vis, st, rank, JoinClean(abs, de.name), ChildPath(rel, de.name));
    } else {
      next := rank;
      SameTrees(j, blobs, st, last, rank);
    }
  }

  /** Only a directory adds trees. */
  lemma ChildIs(j: Job, vis: set<string>, st: Built, abs: string, rel: string, de: DirEnt)
    requires Sane(j) && vis <= j.fs.realPaths && BuildChild(j, vis, st, abs, rel, de).Ok?
    ensures var (last, e) := BuildChild(j, vis, st, abs, rel, de).value;
            && e.name == de.name && GoodName(e.name)
            && if LeadsDown(j, abs, rel, de)
               then var dir := BuildDir(j, vis, st, JoinClean(abs, de.name), ChildPath(rel, de.name));
                    e.kind == DIRECTORY && dir.Ok? && dir.value.0 == last
               else e.kind != DIRECTORY && last.trees == st.trees && last.dirCount == st.dirCount
  {
    hide JoinClean, ChildPath, Look, Sane, BuildDir, Room, Span;
    hide GoodName;
  }

  lemma OneWithinIs(j: Job, blobs: set<Bytes>, vis: set<string>, abs: string, rel: string, e: Entry)
    requires Sane(j) && vis <= j.fs.realPaths
    ensures OneWithin(j, blobs, vis, abs, rel, e)
            == (IsDirectory(e) ==> TreesWithin(j, blobs, vis, JoinClean(abs, e.name), ChildPath(rel, e.name)))
  {
    hide JoinClean, ChildPath, Sane, TreesWithin, IsDirectory, Room, Span;
  }

  lemma SameTrees(j: Job, blobs: set<Bytes>, st: Built, last: Built, rank: Hash -> nat)
    requires Filled(j, blobs, st, rank) && last.trees == st.trees && last.dirCount == st.dirCount
    ensures Filled(j, blobs, last, rank) && Stays(st, last)
  {
    hide RanksDown;
  }

  // ---- The walk over a capture visits what was listed ----

  lemma TreeIsThere(j: Job, s: Snapshot, es: seq<Entry>)
    requires Sane(j) && ContentAddressed(j.codec, s) && j.codec.encode(es) in s.trees.Values
    ensures GetTree(j.codec, s, TreeHash(j, es)) == Ok(es)
  {
    var h :| h in s.trees && s.trees[h] == j.codec.encode(es);
  }

  /** The entry of a directory carries the digest of the tree that is there. */
  ghost predicate IsSub(j: Job, vis: set<string>, abs: string, rel: string, e: Entry)
    requires Sane(j) && vis <= j.fs.realPaths
  {
    var below := Entries(j, vis, JoinClean(abs, e.name), ChildPath(rel, e.name));
    below.Ok? && e.hash == TreeHash(j, below.value)
  }

  lemma ChildIsSub(j: Job, vis: set<string>, abs: string, rel: string, de: DirEnt, e: Entry)
    requires Sane(j) && vis <= j.fs.realPaths && Child(j, vis, abs, rel, de) == Ok(e) && e.kind == DIRECTORY
    ensures IsSub(j, vis, abs, rel, e) && GoodName(e.name)
  {
    hide Entries, Sane, JoinClean, ChildPath, Look, Room, Span;
    hide GoodName;
  }

  lemma KeptIsChild(j: Job, vis: set<string>, abs: string, rel: string, des: seq<DirEnt>, e: Entry) returns (de: DirEnt)
    requires Sane(j) && vis <= j.fs.realPaths && GoodListing(des)
    requires KeptEntries(j, vis, abs, rel, des).Ok? && e in SortByName(KeptEntries(j, vis, abs, rel, des).value)
    ensures Child(j, vis, abs, rel, de) == Ok(e)
  {
    KeptNames(j, vis, abs, rel, des);
    KeptIs(j, vis, abs, rel, des);
    var kept := KeptEntries(j, vis, abs, rel, des).value;
    assert DistinctNames(kept);
    hide *;
    SortIsSorted(kept);
    de :| de in des && Child(j, vis, abs, rel, de) == Ok(e);
  }

  lemma DirEntries(j: Job, vis: set<string>, abs: string, rel: string, e: Entry)
    requires Sane(j) && vis <= j.fs.realPaths && Entries(j, vis, abs, rel).Ok?
    requires e in Entries(j, vis, abs, rel).value && e.kind == DIRECTORY
    ensures Stack(j, vis, abs) <= j.fs.realPaths && GoodName(e.name) && IsSub(j, Stack(j, vis, abs), abs, rel, e)
  {
    var des := j.fs.readDir(abs);
    assert des.Some? ==> GoodListing(des.value);
    WithinOf(j, {}, vis, abs, rel);
    EntriesOf(j, vis, abs, rel);
    hide *;
    var now := Stack(j, vis, abs);
    var de := KeptIsChild(j, now, abs, rel, des.value, e);
    ChildIsSub(j, now, abs, rel, de, e);
  }

  lemma {:induction false} WalkIsListing(
    j: Job, s: Snapshot, rank: Hash -> nat, vis: set<string>, abs: string, rel: string)
    requires Sane(j) && vis <= j.fs.realPaths && Acyclic(j.codec, s, rank) && ContentAddressed(j.codec, s)
    requires Entries(j, vis, abs, rel).Ok? && TreesWithin(j, s.trees.Values, vis, abs, rel)
    ensures WalkTree(j.codec, s, rank, TreeHash(j, Entries(j, vis, abs, rel).value), rel) == Ok(Listing(j, vis, abs, rel))
    decreases |j.fs.realPaths - vis|, Room(j, abs), 3, 0
  {
    var es := Entries(j, vis, abs, rel).value;
    var h, now := TreeHash(j, es), Stack(j, vis, abs);
    WithinOf(j, s.trees.Values, vis, abs, rel);
    Entering(j, vis, abs);
    TreeIsThere(j, s, es);
    WalkTreeIs(j.codec, s, rank, h, es, rel);
    forall e | e in es && e.kind == DIRECTORY ensures GoodName(e.name) && IsSub(j, now, abs, rel, e) {
      DirEntries(j, vis, abs, rel, e);
    }
    hide *;
    EntriesAreListed(j, s, rank, now, abs, rel, h, es);
  }

  lemma WalkTreeIs(c: Codec, s: Snapshot, rank: Hash -> nat, h: Hash, es: seq<Entry>, rel: string)
    requires Acyclic(c, s, rank) && GetTree(c, s, h) == Ok(es)
    ensures forall e :: e in es && e.kind == DIRECTORY ==> rank(e.hash) < rank(h)
    ensures WalkTree(c, s, rank, h, rel) == WalkEntries(c, s, rank, h, es, rel)
  {
  }

  lemma {:induction false} EntriesAreListed(
    j: Job, s: Snapshot, rank: Hash -> nat, vis: set<string>, abs: string, rel: string, h: Hash, es: seq<Entry>)
    requires Sane(j) && vis <= j.fs.realPaths && Acyclic(j.codec, s, rank) && ContentAddressed(j.codec, s)
    requires AllWithin(j, s.trees.Values, vis, abs, rel, es)
    requires forall e :: e in es && e.kind == DIRECTORY ==>
               GoodName(e.name) && rank(e.hash) < rank(h) && IsSub(j, vis, abs, rel, e)
    ensures WalkEntries(j.codec, s, rank, h, es, rel) == Ok(Below(j, vis, abs, rel, es))
    decreases |j.fs.realPaths - vis|, Span(j, abs), 2, |es|
  {
    if es == [] {
      EntriesNone(j.codec, s, rank, h, rel);
      assert Below(j, vis, abs, rel, []) == [];
      hide *;
    } else {
      var e, path := es[0], ChildPath(rel, es[0].name);
      assert e in es && forall d :: d in es[1..] ==> d in es;
      AllWithinFirst(j, s.trees.Values, vis, abs, rel, es);
      SubOf(j, s.trees.Values, vis, abs, rel, e);
      EntriesFirst(j.codec, s, rank, h, es, rel);
      DirectoryIs(e);
      BelowIs(j, vis, abs, rel, es);
      hide *;
      if e.kind == DIRECTORY {
        ChildRoom(j, abs, e.name);
        WalkIsListing(j, s, rank, vis, JoinClean(abs, e.name), path);
      } else {
        assert [Visit(path, e)] + [] == [Visit(path, e)];
      }
      EntriesAreListed(j, s, rank, vis, abs, rel, h, es[1..]);
    }
  }

  lemma SubOf(j: Job, blobs: set<Bytes>, vis: set<string>, abs: string, rel: string, e: Entry)
    requires Sane(j) && vis <= j.fs.realPaths && OneWithin(j, blobs, vis, abs, rel, e)
    requires e.kind == DIRECTORY ==> GoodName(e.name) && IsSub(j, vis, abs, rel, e)
    ensures e.kind == DIRECTORY ==>
              var below := Entries(j, vis, JoinClean(abs, e.name), ChildPath(rel, e.name));
              && below.Ok? && e.hash == TreeHash(j, below.value)
              && TreesWithin(j, blobs, vis, JoinClean(abs, e.name), ChildPath(rel, e.name))
  {
  }

  lemma DirectoryIs(e: Entry)
    requires e.kind == DIRECTORY ==> GoodName(e.name)
    ensures IsDirectory(e) == (e.kind == DIRECTORY)
  {
  }

  // ---- Whole captures ----

  /** The capture of a root succeeded, and no two of the trees it wrote have one digest. */
  ghost predicate Captured(j: Job, blobs: set<Bytes>, root: string, s: Snapshot)
  {
    && Sane(j) && CollisionFree(j.codec.digest, blobs) && TreesWithin(j, blobs, {}, root, "")
    && BuildDir(j, {}, EMPTY, root, "").Ok?
    && var (st, hash) := BuildDir(j, {}, EMPTY, root, "").value;
    s == SnapshotOf(st, hash)
  }

  lemma FilledIsAcyclic(j: Job, blobs: set<Bytes>, st: Built, hash: Hash, rank: Hash -> nat)
    requires Filled(j, blobs, st, rank)
    ensures Acyclic(j.codec, SnapshotOf(st, hash), rank)
  {
    var c, s := j.codec, SnapshotOf(st, hash);
    forall h, e | GetTree(c, s, h).Ok? && e in GetTree(c, s, h).value && e.kind == DIRECTORY ensures rank(e.hash) < rank(h) {
      assert RanksDown(j, rank, rank(h), st.trees[h]);
    }
  }

  lemma SealedIsAddressed(j: Job, st: Built, hash: Hash)
    requires Sealed(j, st)
    ensures ContentAddressed(j.codec, SnapshotOf(st, hash))
  {
    hide AllClosed, GoodNames, GoodFile;
    forall h | h in st.trees ensures j.codec.digest(st.trees[h]) == h {
      assert GoodTree(j, st, h, st.trees[h]);
    }
  }

  /** A capture is acyclic, and walking it visits exactly what the file system lists below the root, in the
      order of names. */
  lemma CaptureThenWalk(j: Job, blobs: set<Bytes>, root: string, s: Snapshot) returns (rank: Hash -> nat)
    requires Captured(j, blobs, root, s)
    ensures Acyclic(j.codec, s, rank) && WellFormed(j.codec, s) && ContentAddressed(j.codec, s)
    ensures (forall h :: h in s.trees ==> s.trees[h] in blobs)
    ensures Walk(j.codec, s, rank) == Ok(Listing(j, {}, root, ""))
  {
    var (st, hash) := BuildDir(j, {}, EMPTY, root, "").value;
    assert Sealed(j, EMPTY) && Filled(j, blobs, EMPTY, (h: Hash) => 0);
    hide Sealed, WellFormed, BuildDir, TreesWithin, CollisionFree, Entries, Listing, Sane, WalkTree, ContentAddressed, RanksDown;
    CaptureIsClosed(j, root);
    rank := DirFills(j, blobs, {}, EMPTY, (h: Hash) => 0, root, "");
    FilledIsAcyclic(j, blobs, st, hash, rank);
    SealedIsAddressed(j, st, hash);
    DirMeans(j, {}, EMPTY, root, "");
    AgreeOk(j, EMPTY, BuildDir(j, {}, EMPTY, root, ""), Entries(j, {}, root, ""), WithSelf(Listing(j, {}, root, "")),
            KeepsDir(j, {}, root, ""));
    hide Acyclic;
    WalkIsListing(j, s, rank, {}, root, "");
  }

  /** A path leads to an entry of the capture exactly when the file system lists that entry there. */
  lemma CaptureThenLookup(j: Job, blobs: set<Bytes>, root: string, s: Snapshot, path: string, e: Entry)
    requires Captured(j, blobs, root, s) && Components(path) != []
    ensures Lookup(j.codec, s, s.root, Components(path)) == Ok(e)
            <==> Visit(JoinParts(Components(path)), e) in Listing(j, {}, root, "")
  {
    hide *;
    var rank := CaptureThenWalk(j, blobs, root, s);
    LookupIffVisited(j.codec, s, rank, path, e);
  }

  /** Comparing two captures patches the one listing of files and links into the other. */
  lemma CapturesThenDiff(
    j: Job, k: Job, blobs: set<Bytes>, root: string, kRoot: string, s: Snapshot, t: Snapshot, r: Result<SnapshotDiff, Error>)
    requires k.codec == j.codec && Captured(j, blobs, root, s) && Captured(k, blobs, kRoot, t)
    requires IsDiff(r, s.root, Some(t.root), Ok(Listing(j, {}, root, "")), Ok(Listing(k, {}, kRoot, "")))
    ensures r.Ok? && ExactPatch(r.value, Leaves(Listing(k, {}, kRoot, "")), Leaves(Listing(j, {}, root, "")))
  {
    var rank := CaptureThenWalk(j, blobs, root, s);
    var kRank := CaptureThenWalk(k, blobs, kRoot, t);
    assert CollisionFree(j.codec.digest, s.trees.Values + t.trees.Values);
    hide *;
    DiffIsExactPatch(j.codec, s, t, rank, kRank, r);
  }
}

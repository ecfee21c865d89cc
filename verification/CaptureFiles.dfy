/** What a capture makes of each listed name, in terms of what the file system says about it. */
module CaptureFiles {
  import opened Basics
  import opened Paths
  import opened Snapshots
  import opened NameOrder
  import opened Captures
  import opened CaptureMeaning
  import opened CaptureOrder
  import opened CaptureSealed
  import opened CaptureWalk
  import opened CaptureLimit
  import opened SnapshotDiffs

  // ---- Links are followed or not ----

  /** The two jobs are told the same about every name that they look at. */
  ghost predicate LookAlike(j: Job, k: Job) {
    && k == j.(fs := j.fs.(stat := k.fs.stat, lstat := k.fs.lstat))
    && forall abs, rel, de :: Look(j, abs, rel, de) == Look(k, abs, rel, de)
  }

  lemma AlikeHere(j: Job, k: Job, vis: set<string>, abs: string)
    requires LookAlike(j, k)
    ensures k.codec == j.codec && k.opts == j.opts && k.fs.realPaths == j.fs.realPaths && k.fs.readDir == j.fs.readDir
    ensures k.fs.readlink == j.fs.readlink && k.fs.content == j.fs.content && k.fs.resolve == j.fs.resolve
    ensures Revisits(j, vis, abs) == Revisits(k, vis, abs) && Stack(j, vis, abs) == Stack(k, vis, abs)
  {
    hide Look;
  }

  lemma {:induction false} DirAlike(j: Job, k: Job, vis: set<string>, st: Built, abs: string, rel: string)
    requires Sane(j) && Sane(k) && LookAlike(j, k) && vis <= j.fs.realPaths
    ensures BuildDir(j, vis, st, abs, rel) == BuildDir(k, vis, st, abs, rel)
    decreases |j.fs.realPaths - vis|, Room(j, abs), 3, 0
  {
    hide *;
    AlikeHere(j, k, vis, abs);
    DirOf(j, vis, st, abs, rel);
    DirOf(k, vis, st, abs, rel);
    if !Revisits(j, vis, abs) && j.fs.readDir(abs).Some? {
      Entering(j, vis, abs);
      AllAlike(j, k, Stack(j, vis, abs), st, [], abs, rel, j.fs.readDir(abs).value);
      SameTree(j, k);
    }
  }

  lemma SameTree(j: Job, k: Job)
    requires LookAlike(j, k)
    ensures forall st, es :: AddTree(j, st, es) == AddTree(k, st, es) && TreeHash(j, es) == TreeHash(k, es)
  {
    AlikeHere(j, k, {}, "");
    hide Look, LookAlike;
    forall st, es ensures AddTree(j, st, es) == AddTree(k, st, es) && TreeHash(j, es) == TreeHash(k, es) {}
  }

  lemma {:induction false} AllAlike(
    j: Job, k: Job, vis: set<string>, st: Built, es: seq<Entry>, abs: string, rel: string, des: seq<DirEnt>)
    requires Sane(j) && Sane(k) && LookAlike(j, k) && vis <= j.fs.realPaths
    ensures BuildAll(j, vis, st, es, abs, rel, des) == BuildAll(k, vis, st, es, abs, rel, des)
    decreases |j.fs.realPaths - vis|, Span(j, abs), 2, |des|
  {
    hide *;
    AlikeHere(j, k, vis, abs);
    if des == [] {
      AllDone(j, vis, st, es, abs, rel);
      AllDone(k, vis, st, es, abs, rel);
    } else {
      assert des[0..] == des;
      AllNext(j, vis, st, es, abs, rel, des, 0);
      AllNext(k, vis, st, es, abs, rel, des, 0);
      ChildAlike(j, k, vis, st, abs, rel, des[0]);
      var child := BuildChild(j, vis, st, abs, rel, des[0]);
      if child.Ok? {
        AllAlike(j, k, vis, child.value.0, es + [child.value.1], abs, rel, des[1..]);
      } else if !Fatal(child.error) {
        AllAlike(j, k, vis, st, es, abs, rel, des[1..]);
      } else {
        assert BuildAll(j, vis, st, es, abs, rel, des) == Err(child.error) == BuildAll(k, vis, st, es, abs, rel, des);
      }
    }
  }

  lemma {:induction false} ChildAlike(j: Job, k: Job, vis: set<string>, st: Built, abs: string, rel: string, de: DirEnt)
    requires Sane(j) && Sane(k) && LookAlike(j, k) && vis <= j.fs.realPaths
    ensures BuildChild(j, vis, st, abs, rel, de) == BuildChild(k, vis, st, abs, rel, de)
    decreases |j.fs.realPaths - vis|, Span(j, abs), 1, 0
  {
    AlikeHere(j, k, vis, abs);
    assert Look(j, abs, rel, de) == Look(k, abs, rel, de);
    if LeadsDown(j, abs, rel, de) {
      ChildRoom(j, abs, de.name);
      DirAlike(j, k, vis, st, JoinClean(abs, de.name), ChildPath(rel, de.name));
    }
    hide JoinClean, ChildPath, Sane, BuildDir, Look, LookAlike, Room, Span, GoodName;
  }

  /** A capture that does not follow links never asks what a link leads to ... */
  lemma StatIsIgnored(j: Job, k: Job, root: string)
    requires Sane(j) && Sane(k) && !j.opts.followSymlinks && k == j.(fs := j.fs.(stat := k.fs.stat))
    ensures BuildDir(j, {}, EMPTY, root, "") == BuildDir(k, {}, EMPTY, root, "")
  {
    assert LookAlike(j, k);
    hide BuildDir, LookAlike, Sane;
    DirAlike(j, k, {}, EMPTY, root, "");
  }

  /** ... and one that follows them never asks about the link itself. */
  lemma LstatIsIgnored(j: Job, k: Job, root: string)
    requires Sane(j) && Sane(k) && j.opts.followSymlinks && k == j.(fs := j.fs.(lstat := k.fs.lstat))
    ensures BuildDir(j, {}, EMPTY, root, "") == BuildDir(k, {}, EMPTY, root, "")
  {
    assert LookAlike(j, k);
    hide BuildDir, LookAlike, Sane;
    DirAlike(j, k, {}, EMPTY, root, "");
  }

  // ---- The entry of a listed name ----

  /** What is said about a path: of a link itself, or of what it leads to when links are followed. */
  function Said(j: Job, path: string): Option<Info> {
    if j.opts.followSymlinks then j.fs.stat(path) else j.fs.lstat(path)
  }

  function Excludes(j: Job, rel: string, de: DirEnt): bool {
    j.opts.exclude(ChildPath(rel, de.name), de.isDir)
  }

  /** The entry a name is to have: a link with the digest of its target, a directory with that of its tree, or
      a regular file with that of its content; or none when it is excluded, when nothing is said about it, when
      it cannot be read, or when it is a file over the maximum size. */
  ghost predicate Deserves(j: Job, vis: set<string>, abs: string, rel: string, de: DirEnt, e: Entry)
    requires Sane(j) && vis <= j.fs.realPaths
  {
    var path := JoinClean(abs, de.name);
    var info := Said(j, path);
    && !Excludes(j, rel, de) && info.Some? && e.name == de.name && e.mode == info.value.mode
    && if info.value.link then
         && j.fs.readlink(path).Some? && e.kind == SYMLINK
         && e.size == |j.fs.readlink(path).value| && e.hash == j.codec.digest(j.fs.readlink(path).value)
       else if info.value.dir then
         var below := Entries(j, vis, path, ChildPath(rel, de.name));
         below.Ok? && e.kind == DIRECTORY && e.size == 0 && e.hash == TreeHash(j, below.value)
       else
         && info.value.size <= j.opts.maxFileSize && j.fs.content(path).Some? && e.kind == FILE
         && e.size == info.value.size && e.hash == j.codec.digest(j.fs.content(path).value)
  }

  lemma ChildIffDeserves(j: Job, vis: set<string>, abs: string, rel: string, de: DirEnt, e: Entry)
    requires Sane(j) && vis <= j.fs.realPaths
    ensures Child(j, vis, abs, rel, de) == Ok(e) <==> Deserves(j, vis, abs, rel, de, e)
  {
    hide JoinClean, ChildPath, Sane, Entries, GoodName, Room, Span;
  }

  /** The entries of a directory are exactly those that its listed names deserve. */
  lemma EntriesIff(j: Job, vis: set<string>, abs: string, rel: string, e: Entry)
    requires Sane(j) && vis <= j.fs.realPaths && Entries(j, vis, abs, rel).Ok?
    ensures j.fs.readDir(abs).Some? && Stack(j, vis, abs) <= j.fs.realPaths
    ensures e in Entries(j, vis, abs, rel).value
            <==> exists de :: de in j.fs.readDir(abs).value && Deserves(j, Stack(j, vis, abs), abs, rel, de, e)
  {
    var des := j.fs.readDir(abs);
    assert des.Some? ==> GoodListing(des.value);
    hide *;
    EntriesOf(j, vis, abs, rel);
    var now := Stack(j, vis, abs);
    var kept := KeptEntries(j, now, abs, rel, des.value).value;
    KeptIs(j, now, abs, rel, des.value);
    KeptNames(j, now, abs, rel, des.value);
    NamedIsDistinct(kept, des.value);
    SortIsSorted(kept);
    forall de ensures Child(j, now, abs, rel, de) == Ok(e) <==> Deserves(j, now, abs, rel, de, e) {
      ChildIffDeserves(j, now, abs, rel, de, e);
    }
  }

  lemma NamedIsDistinct(es: seq<Entry>, des: seq<DirEnt>)
    requires NamedIn(es, des)
    ensures DistinctNames(es)
  {
  }

  /** Without following links, a listed and unexcluded link has an entry that is a link under the digest of its
      target, whatever it leads to. */
  lemma LinkStaysLink(j: Job, vis: set<string>, abs: string, rel: string, de: DirEnt, info: Info, target: Bytes)
    requires Sane(j) && vis <= j.fs.realPaths && Entries(j, vis, abs, rel).Ok? && !j.opts.followSymlinks
    requires j.fs.readDir(abs).Some? && de in j.fs.readDir(abs).value && !j.opts.exclude(ChildPath(rel, de.name), de.isDir)
    requires j.fs.lstat(JoinClean(abs, de.name)) == Some(info) && info.link && j.fs.readlink(JoinClean(abs, de.name)) == Some(target)
    ensures Visit(ChildPath(rel, de.name), Entry(de.name, SYMLINK, info.mode, |target|, j.codec.digest(target)))
            in Listing(j, vis, abs, rel)
  {
    var e := Entry(de.name, SYMLINK, info.mode, |target|, j.codec.digest(target));
    EntriesIff(j, vis, abs, rel, e);
    assert Deserves(j, Stack(j, vis, abs), abs, rel, de, e);
    hide *;
    EntryIsListed(j, vis, abs, rel, e);
  }

  lemma EntryIsListed(j: Job, vis: set<string>, abs: string, rel: string, e: Entry)
    requires Sane(j) && vis <= j.fs.realPaths && Entries(j, vis, abs, rel).Ok? && e in Entries(j, vis, abs, rel).value
    ensures Visit(ChildPath(rel, e.name), e) in Listing(j, vis, abs, rel)
  {
    hide *;
    EntriesOf(j, vis, abs, rel);
    BelowHas(j, Stack(j, vis, abs), abs, rel, Entries(j, vis, abs, rel).value, e);
  }

  lemma {:induction false} BelowHas(j: Job, vis: set<string>, abs: string, rel: string, es: seq<Entry>, e: Entry)
    requires Sane(j) && vis <= j.fs.realPaths && e in es
    ensures Visit(ChildPath(rel, e.name), e) in Below(j, vis, abs, rel, es)
  {
    hide *;
    BelowIs(j, vis, abs, rel, es);
    if e != es[0] {
      BelowHas(j, vis, abs, rel, es[1..], e);
    }
  }

  // ---- What is listed has been reached through unexcluded names ----

  /** Each step is listed where it is taken and not excluded there. */
  ghost predicate Allowed(j: Job, abs: string, rel: string, steps: seq<DirEnt>)
    decreases |steps|
  {
    steps != [] ==>
      && j.fs.readDir(abs).Some? && steps[0] in j.fs.readDir(abs).value && !Excludes(j, rel, steps[0])
      && Allowed(j, JoinClean(abs, steps[0].name), ChildPath(rel, steps[0].name), steps[1..])
  }

  function Names(steps: seq<DirEnt>): seq<string> {
    seq(|steps|, i requires 0 <= i < |steps| => steps[i].name)
  }

  /** The relative path that the steps lead to. */
  function RelAt(rel: string, steps: seq<DirEnt>): string
    decreases |steps|
  {
    if steps == [] then rel else RelAt(ChildPath(rel, steps[0].name), steps[1..])
  }

  lemma {:induction false} ListedIsAllowed(j: Job, vis: set<string>, abs: string, rel: string, v: Visit) returns (steps: seq<DirEnt>)
    requires Sane(j) && vis <= j.fs.realPaths && v in Listing(j, vis, abs, rel)
    ensures steps != [] && Allowed(j, abs, rel, steps) && v.path == RelAt(rel, steps)
    decreases |j.fs.realPaths - vis|, Room(j, abs), 3, 0
  {
    hide *;
    if Entries(j, vis, abs, rel).Err? {
      NothingListed(j, vis, abs, rel);
    }
    EntriesOf(j, vis, abs, rel);
    Entering(j, vis, abs);
    steps := BelowIsAllowed(j, vis, abs, rel, Entries(j, vis, abs, rel).value, v);
  }

  lemma {:induction false} BelowIsAllowed(j: Job, vis: set<string>, abs: string, rel: string, es: seq<Entry>, v: Visit)
    returns (steps: seq<DirEnt>)
    requires Sane(j) && vis <= j.fs.realPaths && !Revisits(j, vis, abs) && j.fs.readDir(abs).Some?
    requires Stack(j, vis, abs) <= j.fs.realPaths && Entries(j, vis, abs, rel).Ok?
    requires |j.fs.realPaths - Stack(j, vis, abs)| <= |j.fs.realPaths - vis|
    requires forall e :: e in es ==> e in Entries(j, vis, abs, rel).value
    requires v in Below(j, Stack(j, vis, abs), abs, rel, es)
    ensures steps != [] && Allowed(j, abs, rel, steps) && v.path == RelAt(rel, steps)
    decreases |j.fs.realPaths - Stack(j, vis, abs)|, Span(j, abs), 2, |es|
  {
    hide *;
    var now := Stack(j, vis, abs);
    if es == [] {
      BelowNone(j, now, abs, rel);
    }
    BelowIs(j, now, abs, rel, es);
    var e := es[0];
    assert e in es && forall d :: d in es[1..] ==> d in es;
    if v in Below(j, now, abs, rel, es[1..]) {
      steps := BelowIsAllowed(j, vis, abs, rel, es[1..], v);
    } else {
      EntriesIff(j, vis, abs, rel, e);
      var de :| de in j.fs.readDir(abs).value && Deserves(j, now, abs, rel, de, e);
      DeservedName(j, now, abs, rel, de, e);
      if v == Visit(ChildPath(rel, e.name), e) {
        steps := [de];
        OneStep(j, abs, rel, de, []);
        NoStep(j, JoinClean(abs, de.name), ChildPath(rel, de.name));
      } else {
        IsDirectoryName(e);
        ChildRoom(j, abs, e.name);
        var below := ListedIsAllowed(j, now, JoinClean(abs, e.name), ChildPath(rel, e.name), v);
        steps := [de] + below;
        OneStep(j, abs, rel, de, below);
      }
    }
  }

  lemma DeservedName(j: Job, vis: set<string>, abs: string, rel: string, de: DirEnt, e: Entry)
    requires Sane(j) && vis <= j.fs.realPaths && Deserves(j, vis, abs, rel, de, e)
    ensures e.name == de.name && !Excludes(j, rel, de)
  {
  }

  lemma NoStep(j: Job, abs: string, rel: string)
    ensures Allowed(j, abs, rel, []) && RelAt(rel, []) == rel
  {
  }

  lemma OneStep(j: Job, abs: string, rel: string, de: DirEnt, steps: seq<DirEnt>)
    ensures Allowed(j, abs, rel, [de] + steps)
            <==> j.fs.readDir(abs).Some? && de in j.fs.readDir(abs).value && !Excludes(j, rel, de)
                 && Allowed(j, JoinClean(abs, de.name), ChildPath(rel, de.name), steps)
    ensures RelAt(rel, [de] + steps) == RelAt(ChildPath(rel, de.name), steps)
    ensures [de] + [] == [de]
  {
    assert ([de] + steps)[1..] == steps;
    hide JoinClean, ChildPath, Excludes;
  }

  /** From a clean prefix the steps lead to the joined names. */
  lemma {:induction false} RelAtJoins(pre: seq<string>, steps: seq<DirEnt>)
    requires Clear(pre)
    ensures Clear(pre + Names(steps)) && RelAt(JoinParts(pre), steps) == JoinParts(pre + Names(steps))
    decreases |steps|
  {
    hide Clear, JoinParts, ChildPath, GoodName;
    if steps == [] {
      assert pre + Names(steps) == pre;
    } else {
      var name := steps[0].name;
      ChildPathAdds(pre, name);
      RelAtJoins(pre + [name], steps[1..]);
      assert Names(steps) == [name] + Names(steps[1..]);
      ConcatAssociative(pre, [name], Names(steps[1..]));
    }
  }

  /** Steps by the same names are the same steps. */
  lemma {:induction false} SameNamesAllowed(j: Job, abs: string, rel: string, steps: seq<DirEnt>, longer: seq<DirEnt>)
    requires Sane(j) && Allowed(j, abs, rel, longer) && StepsListed(j, abs, steps) && Names(steps) <= Names(longer)
    ensures Allowed(j, abs, rel, steps)
    decreases |steps|
  {
    if steps != [] {
      assert Names(steps)[0] == Names(longer)[0];
      SameNameSame(j, abs, steps[0], longer[0]);
      assert Names(steps)[1..] == Names(steps[1..]) && Names(longer)[1..] == Names(longer[1..]);
      hide Sane, JoinClean, ChildPath, Excludes, GoodName;
      SameNamesAllowed(j, JoinClean(abs, steps[0].name), ChildPath(rel, steps[0].name), steps[1..], longer[1..]);
    }
  }

  lemma SameNameSame(j: Job, abs: string, a: DirEnt, b: DirEnt)
    requires Sane(j) && j.fs.readDir(abs).Some? && a in j.fs.readDir(abs).value && b in j.fs.readDir(abs).value && a.name == b.name
    ensures a == b
  {
    assert GoodListing(j.fs.readDir(abs).value);
    hide Sane, Components, GoodName;
  }

  lemma {:induction false} AllowedNotExcluded(j: Job, abs: string, rel: string, steps: seq<DirEnt>, i: nat)
    requires Allowed(j, abs, rel, steps) && i < |steps|
    ensures !j.opts.exclude(ChildPath(RelAt(rel, steps[..i]), steps[i].name), steps[i].isDir)
    decreases |steps|
  {
    hide JoinClean, ChildPath;
    if i > 0 {
      AllowedNotExcluded(j, JoinClean(abs, steps[0].name), ChildPath(rel, steps[0].name), steps[1..], i - 1);
      assert steps[..i][1..] == steps[1..][..i - 1];
    } else {
      assert steps[..0] == [];
    }
  }

  /** An excluded name is not in a capture, nor is anything below it: no path is listed that starts with a chain
      of listed names of which one is excluded. */
  lemma ExcludedIsAbsent(j: Job, root: string, steps: seq<DirEnt>, i: nat, more: seq<string>, v: Visit)
    requires Sane(j) && StepsListed(j, root, steps) && i < |steps|
    requires j.opts.exclude(ChildPath(RelAt("", steps[..i]), steps[i].name), steps[i].isDir)
    requires Clear(Names(steps) + more) && v in Listing(j, {}, root, "")
    ensures v.path != JoinParts(Names(steps) + more)
  {
    var found := ListedIsAllowed(j, {}, root, "", v);
    var none: seq<string> := [];
    assert Clear(none) && JoinParts(none) == "";
    hide Listing, Allowed, StepsListed, Clear, Sane, ChildPath, RelAt, JoinParts;
    RelAtJoins(none, found);
    assert none + Names(found) == Names(found);
    if v.path == JoinParts(Names(steps) + more) {
      JoinIsInjective(Names(found), Names(steps) + more);
      SameNamesAllowed(j, root, "", steps, found);
      AllowedNotExcluded(j, root, "", steps, i);
    }
  }

  // ---- Captures compared ----

  /** The difference of two captures names exactly the paths at which a regular file or link came, went, or got
      another hash. */
  lemma CapturesNameChanges(
    j: Job, k: Job, blobs: set<Bytes>, root: string, kRoot: string, s: Snapshot, t: Snapshot, r: Result<SnapshotDiff, Error>)
    requires k.codec == j.codec && Captured(j, blobs, root, s) && Captured(k, blobs, kRoot, t)
    requires IsDiff(r, s.root, Some(t.root), Ok(Listing(j, {}, root, "")), Ok(Listing(k, {}, kRoot, "")))
    ensures r.Ok? && NamesChanges(r.value, Listing(k, {}, kRoot, ""), Listing(j, {}, root, ""))
  {
    var rank := CaptureThenWalk(j, blobs, root, s);
    var kRank := CaptureThenWalk(k, blobs, kRoot, t);
    assert CollisionFree(j.codec.digest, s.trees.Values + t.trees.Values);
    hide *;
    DiffNamesChanges(j.codec, s, t, rank, kRank, r);
  }

  /** Whatever a capture lists is a regular file, a directory or a link. */
  lemma {:induction false} ListedKinds(j: Job, vis: set<string>, abs: string, rel: string, v: Visit)
    requires Sane(j) && vis <= j.fs.realPaths && v in Listing(j, vis, abs, rel)
    ensures v.entry.kind == FILE || v.entry.kind == DIRECTORY || v.entry.kind == SYMLINK
    decreases |j.fs.realPaths - vis|, Room(j, abs), 3, 0
  {
    hide *;
    if Entries(j, vis, abs, rel).Err? {
      NothingListed(j, vis, abs, rel);
    }
    EntriesOf(j, vis, abs, rel);
    Entering(j, vis, abs);
    forall e | e in Entries(j, vis, abs, rel).value ensures e.kind == FILE || e.kind == DIRECTORY || e.kind == SYMLINK {
      EntriesIff(j, vis, abs, rel, e);
      var de :| de in j.fs.readDir(abs).value && Deserves(j, Stack(j, vis, abs), abs, rel, de, e);
      DeservedKind(j, Stack(j, vis, abs), abs, rel, de, e);
    }
    BelowKinds(j, Stack(j, vis, abs), abs, rel, Entries(j, vis, abs, rel).value, v);
  }

  lemma DeservedKind(j: Job, vis: set<string>, abs: string, rel: string, de: DirEnt, e: Entry)
    requires Sane(j) && vis <= j.fs.realPaths && Deserves(j, vis, abs, rel, de, e)
    ensures e.kind == FILE || e.kind == DIRECTORY || e.kind == SYMLINK
  {
  }

  lemma {:induction false} BelowKinds(j: Job, vis: set<string>, abs: string, rel: string, es: seq<Entry>, v: Visit)
    requires Sane(j) && vis <= j.fs.realPaths && v in Below(j, vis, abs, rel, es)
    requires forall e :: e in es ==> e.kind == FILE || e.kind == DIRECTORY || e.kind == SYMLINK
    ensures v.entry.kind == FILE || v.entry.kind == DIRECTORY || v.entry.kind == SYMLINK
    decreases |j.fs.realPaths - vis|, Span(j, abs), 2, |es|
  {
    hide *;
    if es == [] {
      BelowNone(j, vis, abs, rel);
    }
    BelowIs(j, vis, abs, rel, es);
    var e := es[0];
    assert e in es && forall d :: d in es[1..] ==> d in es;
    if v in Below(j, vis, abs, rel, es[1..]) {
      BelowKinds(j, vis, abs, rel, es[1..], v);
    } else if v != Visit(ChildPath(rel, e.name), e) {
      IsDirectoryName(e);
      ChildRoom(j, abs, e.name);
      ListedKinds(j, vis, JoinClean(abs, e.name), ChildPath(rel, e.name), v);
    }
  }
}

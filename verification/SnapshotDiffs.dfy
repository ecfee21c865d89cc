/** Comparing two filesystem snapshots by the hashes of their files and links. */
module SnapshotDiffs {
  import opened Basics
  import opened Snapshots

  function NoRoot(): Hash { seq(HASH_LEN, _ => 0) }

  datatype SnapshotDiff = SnapshotDiff(
    oldRoot: Hash, newRoot: Hash, added: seq<string>, removed: seq<string>, modified: seq<string>)

  predicate IsLeaf(e: Entry) {
    e.kind == FILE || e.kind == SYMLINK
  }

  /** The hash of every file and link by path; a later visit of the same path wins. */
  function Leaves(vs: seq<Visit>): map<string, Hash> {
    if vs == [] then map[]
    else
      var before, v := Leaves(vs[..|vs| - 1]), vs[|vs| - 1];
      if IsLeaf(v.entry) then before[v.path := v.entry.hash] else before
  }

  ghost predicate NoRepeats<T(!new)>(xs: seq<T>) {
    forall i, j :: 0 <= i < j < |xs| ==> xs[i] != xs[j]
  }

  /** `xs` lists the members of `s`, each once. */
  ghost predicate Lists<T(!new)>(xs: seq<T>, s: set<T>) {
    NoRepeats(xs) && forall x :: x in xs <==> x in s
  }

  /** One more element of `todo` is dealt with: it joins the list exactly when it is in `s`. */
  lemma ListsNext<T(!new)>(xs: seq<T>, s: set<T>, todo: set<T>, x: T)
    requires Lists(xs, s - todo) && x in todo
    ensures Lists(if x in s then xs + [x] else xs, s - (todo - {x}))
  {
    assert s - (todo - {x}) == if x in s then s - todo + {x} else s - todo;
  }

  ghost function Changed(was: map<string, Hash>, now: map<string, Hash>): set<string> {
    set p | p in now.Keys && p in was.Keys && now[p] != was[p]
  }

  /** The three lists name what is only in the new map, only in the old map, and different in both. */
  ghost predicate Separates(d: SnapshotDiff, was: map<string, Hash>, now: map<string, Hash>) {
    && Lists(d.added, now.Keys - was.Keys)
    && Lists(d.removed, was.Keys - now.Keys)
    && Lists(d.modified, Changed(was, now))
  }

  lemma LeavesNext(vs: seq<Visit>, i: nat)
    requires i < |vs|
    ensures Leaves(vs[..i + 1])
            == if IsLeaf(vs[i].entry) then Leaves(vs[..i])[vs[i].path := vs[i].entry.hash] else Leaves(vs[..i])
  {
    assert vs[..i + 1][..i] == vs[..i];
  }

  method CollectPaths(c: Codec, s: Snapshot, ghost rank: Hash -> nat) returns (r: Result<map<string, Hash>, Error>)
    requires Acyclic(c, s, rank)
    ensures r == match Walk(c, s, rank) case Ok(vs) => Ok(Leaves(vs)) case Err(e) => Err(e)
  {
    var walker := new Walker();
    var failed := walker.VisitTree(c, s, rank, s.root, "");
    if failed.Some? {
      return Err(failed.value);
    }
    var visits := walker.visits;
    assert visits == Walk(c, s, rank).value;
    var paths := map[];
    for i := 0 to |visits|
      invariant paths == Leaves(visits[..i])
    {
      LeavesNext(visits, i);
      if IsLeaf(visits[i].entry) {
        paths := paths[visits[i].path := visits[i].entry.hash];
      }
    }
    assert visits[..|visits|] == visits;
    r := Ok(paths);
  }

  /** The added and the modified paths, in the arbitrary order of a map. */
  method AddedAndModified(was: map<string, Hash>, now: map<string, Hash>)
    returns (added: seq<string>, modified: seq<string>)
    ensures Lists(added, now.Keys - was.Keys) && Lists(modified, Changed(was, now))
  {
    added, modified := [], [];
    var todo := now.Keys;
    ghost var more, differ := now.Keys - was.Keys, Changed(was, now);
    assert more - todo == {} && differ - todo == {};
    assert forall p :: p in now ==> (p in more <==> p !in was) && (p in differ <==> p in was && now[p] != was[p]);
    assert more - {} == more && differ - {} == differ;
    assert Lists<string>([], {});
    hide Lists, Changed;
    while todo != {}
      invariant todo <= now.Keys
      invariant Lists(added, more - todo) && Lists(modified, differ - todo)
      decreases |todo|
    {
      var path :| path in todo;
      ListsNext(added, more, todo, path);
      ListsNext(modified, differ, todo, path);
      if path !in was {
        added := added + [path];
      } else if now[path] != was[path] {
        modified := modified + [path];
      }
      todo := todo - {path};
    }
  }

  method MissingFrom(was: map<string, Hash>, now: map<string, Hash>) returns (removed: seq<string>)
    ensures Lists(removed, was.Keys - now.Keys)
  {
    removed := [];
    var todo := was.Keys;
    ghost var gone := was.Keys - now.Keys;
    assert gone - todo == {} && gone - {} == gone;
    while todo != {}
      invariant todo <= was.Keys
      invariant Lists(removed, gone - todo)
      decreases |todo|
    {
      var path :| path in todo;
      ListsNext(removed, gone, todo, path);
      if path !in now {
        removed := removed + [path];
      }
      todo := todo - {path};
    }
  }

  /** What the comparison returns, up to the order of the three lists. */
  ghost predicate IsDiff(
    r: Result<SnapshotDiff, Error>, root: Hash, oldRoot: Option<Hash>, walk: Result<seq<Visit>, Error>,
    oldWalk: Result<seq<Visit>, Error>)
  {
    if oldRoot == Some(root) then r == Ok(SnapshotDiff(root, root, [], [], []))
    else if walk.Err? then r == Err(walk.error)
    else if oldWalk.Err? then r == Err(oldWalk.error)
    else
      && r.Ok? && r.value.newRoot == root
      && r.value.oldRoot == (if oldRoot.Some? then oldRoot.value else NoRoot())
      && Separates(r.value, Leaves(oldWalk.value), Leaves(walk.value))
  }

  ghost function OldWalk(c: Codec, prior: Option<Snapshot>, rank: Hash -> nat): Result<seq<Visit>, Error>
    requires prior.Some? ==> Acyclic(c, prior.value, rank)
  {
    if prior.Some? then Walk(c, prior.value, rank) else Ok([])
  }

  function RootOf(s: Option<Snapshot>): Option<Hash> {
    if s.Some? then Some(s.value.root) else None
  }

  method Diff(c: Codec, s: Snapshot, prior: Option<Snapshot>, ghost rank: Hash -> nat, ghost oldRank: Hash -> nat)
    returns (r: Result<SnapshotDiff, Error>)
    requires Acyclic(c, s, rank)
    requires prior.Some? ==> Acyclic(c, prior.value, oldRank)
    ensures IsDiff(r, s.root, RootOf(prior), Walk(c, s, rank), OldWalk(c, prior, oldRank))
  {
    hide Acyclic, Walk, Leaves, Lists, Changed;
    var oldRoot := if prior.Some? then prior.value.root else NoRoot();
    if prior.Some? && s.root == prior.value.root {
      return Ok(SnapshotDiff(oldRoot, s.root, [], [], []));
    }
    var collected := CollectPaths(c, s, rank);
    if collected.Err? {
      return Err(collected.error);
    }
    var newPaths := collected.value;
    if prior.None? {
      var all := AllPaths(newPaths);
      NothingBefore(all, newPaths);
      return Ok(SnapshotDiff(oldRoot, s.root, all, [], []));
    }
    var oldCollected := CollectPaths(c, prior.value, oldRank);
    if oldCollected.Err? {
      return Err(oldCollected.error);
    }
    var oldPaths := oldCollected.value;
    var added, modified := AddedAndModified(oldPaths, newPaths);
    var removed := MissingFrom(oldPaths, newPaths);
    r := Ok(SnapshotDiff(oldRoot, s.root, added, removed, modified));
  }

  method AllPaths(paths: map<string, Hash>) returns (all: seq<string>)
    ensures Lists(all, paths.Keys)
  {
    all := [];
    var todo := paths.Keys;
    assert todo - {} == todo;
    while todo != {}
      invariant todo <= paths.Keys
      invariant Lists(all, paths.Keys - todo)
      decreases |todo|
    {
      var path :| path in todo;
      ListsNext(all, paths.Keys, todo, path);
      all := all + [path];
      todo := todo - {path};
    }
  }

  lemma NothingBefore(all: seq<string>, paths: map<string, Hash>)
    requires Lists(all, paths.Keys)
    ensures Leaves([]) == map[]
    ensures Lists(all, paths.Keys - Leaves([]).Keys)
    ensures Lists([], Leaves([]).Keys - paths.Keys) && Lists([], Changed(Leaves([]), paths))
  {
    assert paths.Keys - {} == paths.Keys;
  }

  // ---- A difference is an exact patch ----

  /** The paths a difference names, all in one list. */
  function Named(d: SnapshotDiff): seq<string> {
    d.added + d.removed + d.modified
  }

  /** The map after the patch: the removed paths go, the added and modified ones get their new hash. */
  ghost function Patched(d: SnapshotDiff, was: map<string, Hash>, now: map<string, Hash>): map<string, Hash>
    requires forall p :: p in d.added || p in d.modified ==> p in now
  {
    (map p | p in was.Keys && p !in d.removed :: was[p]) + (map p | p in d.added + d.modified :: now[p])
  }

  /** A patch that leads from one map to the other and names nothing in vain. */
  ghost predicate ExactPatch(d: SnapshotDiff, was: map<string, Hash>, now: map<string, Hash>) {
    && NoRepeats(d.added) && NoRepeats(d.removed) && NoRepeats(d.modified)
    && (forall p :: p in d.removed ==> p !in d.added && p !in d.modified)
    && (forall p :: p in d.added ==> p in now && p !in was)
    && (forall p :: p in d.removed ==> p in was)
    && (forall p :: p in d.modified ==> p in was && p in now && was[p] != now[p])
    && Patched(d, was, now) == now
  }

  /** The lists of a difference are pairwise disjoint and lead from the one map to the other; and they are
      the only lists that do so without naming an unchanged path. */
  lemma SeparatesIffExactPatch(d: SnapshotDiff, was: map<string, Hash>, now: map<string, Hash>)
    ensures Separates(d, was, now) <==> ExactPatch(d, was, now)
  {
    if Separates(d, was, now) {
      SeparatesIsPatch(d, was, now);
    }
    if ExactPatch(d, was, now) {
      PatchSeparates(d, was, now);
    }
  }

  lemma SeparatesIsPatch(d: SnapshotDiff, was: map<string, Hash>, now: map<string, Hash>)
    requires Separates(d, was, now)
    ensures ExactPatch(d, was, now)
  {
    var patched := Patched(d, was, now);
    forall p | p in patched.Keys ensures p in now && patched[p] == now[p] {}
    forall p | p in now.Keys ensures p in patched {}
  }

  lemma PatchSeparates(d: SnapshotDiff, was: map<string, Hash>, now: map<string, Hash>)
    requires ExactPatch(d, was, now)
    ensures Separates(d, was, now)
  {
    forall p ensures p in d.removed <==> p in was.Keys - now.Keys {
      if p in d.removed {
        assert p !in Patched(d, was, now);
      }
      if p in was && p !in now {
        assert p !in Patched(d, was, now);
      }
    }
    forall p ensures p in d.added <==> p in now.Keys - was.Keys {
      assert p in now ==> p in Patched(d, was, now);
    }
    forall p ensures p in d.modified <==> p in Changed(was, now) {
      assert p in now ==> p in Patched(d, was, now);
    }
  }

  /** Nothing is named exactly when no path changed; entry modes and empty directories do not count. */
  lemma EmptyIffUnchanged(d: SnapshotDiff, was: map<string, Hash>, now: map<string, Hash>)
    requires Separates(d, was, now)
    ensures Named(d) == [] <==> was == now
  {
    SeparatesIsPatch(d, was, now);
    assert Named(d) != [] ==> Named(d)[0] in Named(d);
    if Named(d) == [] {
      assert d.added == [] && d.removed == [] && d.modified == [];
      assert Patched(d, was, now) == was;
    }
  }

  // ---- Equal roots mean equal leaves ----

  ghost predicate ContentAddressed(c: Codec, s: Snapshot) {
    forall h :: h in s.trees ==> c.digest(s.trees[h]) == h
  }

  /** Whatever is found under one hash in both snapshots is the same tree. */
  lemma SameTree(c: Codec, s: Snapshot, t: Snapshot, h: Hash)
    requires ContentAddressed(c, s) && ContentAddressed(c, t) && CollisionFree(c.digest, s.trees.Values + t.trees.Values)
    requires h in s.trees && h in t.trees
    ensures GetTree(c, s, h) == GetTree(c, t, h)
  {
    assert s.trees[h] in s.trees.Values && t.trees[h] in t.trees.Values;
  }

  lemma {:induction false} SameWalk(
    c: Codec, s: Snapshot, t: Snapshot, rank: Hash -> nat, tRank: Hash -> nat, h: Hash, prefix: string)
    requires Acyclic(c, s, rank) && Acyclic(c, t, tRank)
    requires ContentAddressed(c, s) && ContentAddressed(c, t) && CollisionFree(c.digest, s.trees.Values + t.trees.Values)
    requires WalkTree(c, s, rank, h, prefix).Ok? && WalkTree(c, t, tRank, h, prefix).Ok?
    ensures WalkTree(c, s, rank, h, prefix) == WalkTree(c, t, tRank, h, prefix)
    decreases rank(h), 1, 0
  {
    SameTree(c, s, t, h);
    SameEntries(c, s, t, rank, tRank, h, GetTree(c, s, h).value, prefix);
  }

  lemma {:induction false} SameEntries(
    c: Codec, s: Snapshot, t: Snapshot, rank: Hash -> nat, tRank: Hash -> nat, h: Hash, es: seq<Entry>, prefix: string)
    requires Acyclic(c, s, rank) && Acyclic(c, t, tRank)
    requires ContentAddressed(c, s) && ContentAddressed(c, t) && CollisionFree(c.digest, s.trees.Values + t.trees.Values)
    requires forall e :: e in es && e.kind == DIRECTORY ==> rank(e.hash) < rank(h) && tRank(e.hash) < tRank(h)
    requires WalkEntries(c, s, rank, h, es, prefix).Ok? && WalkEntries(c, t, tRank, h, es, prefix).Ok?
    ensures WalkEntries(c, s, rank, h, es, prefix) == WalkEntries(c, t, tRank, h, es, prefix)
    decreases rank(h), 0, |es|
  {
    if es != [] {
      assert es[0] in es;
      if es[0].kind == DIRECTORY {
        SameWalk(c, s, t, rank, tRank, es[0].hash, ChildPath(prefix, es[0].name));
      }
      SameEntries(c, s, t, rank, tRank, h, es[1..], prefix);
    }
  }

  /** Between two content-addressed snapshots that can be walked, what the comparison returns is an exact
      patch from the old leaves to the new ones, the early return on equal roots included. */
  lemma DiffIsExactPatch(
    c: Codec, s: Snapshot, t: Snapshot, rank: Hash -> nat, tRank: Hash -> nat, r: Result<SnapshotDiff, Error>)
    requires Acyclic(c, s, rank) && Acyclic(c, t, tRank)
    requires ContentAddressed(c, s) && ContentAddressed(c, t) && CollisionFree(c.digest, s.trees.Values + t.trees.Values)
    requires Walk(c, s, rank).Ok? && Walk(c, t, tRank).Ok?
    requires IsDiff(r, s.root, Some(t.root), Walk(c, s, rank), Walk(c, t, tRank))
    ensures r.Ok? && ExactPatch(r.value, Leaves(Walk(c, t, tRank).value), Leaves(Walk(c, s, rank).value))
    ensures Named(r.value) == [] <==> Leaves(Walk(c, t, tRank).value) == Leaves(Walk(c, s, rank).value)
  {
    var was, now := Leaves(Walk(c, t, tRank).value), Leaves(Walk(c, s, rank).value);
    if s.root == t.root {
      SameWalk(c, s, t, rank, tRank, s.root, "");
    }
    hide Acyclic, ContentAddressed, CollisionFree, Walk, WalkTree, Leaves;
    assert s.root == t.root ==> was == now;
    hide *;
    DiffSeparates(r, s.root, t.root, Walk(c, s, rank), Walk(c, t, tRank));
    SeparatesIffExactPatch(r.value, was, now);
    EmptyIffUnchanged(r.value, was, now);
  }

  lemma DiffSeparates(
    r: Result<SnapshotDiff, Error>, root: Hash, oldRoot: Hash, walk: Result<seq<Visit>, Error>,
    oldWalk: Result<seq<Visit>, Error>)
    requires walk.Ok? && oldWalk.Ok? && IsDiff(r, root, Some(oldRoot), walk, oldWalk)
    requires root == oldRoot ==> Leaves(walk.value) == Leaves(oldWalk.value)
    ensures r.Ok? && Separates(r.value, Leaves(oldWalk.value), Leaves(walk.value))
  {
    hide Leaves;
    var was, now := Leaves(oldWalk.value), Leaves(walk.value);
    if root == oldRoot {
      assert Changed(was, now) == {} && now.Keys - was.Keys == {} && was.Keys - now.Keys == {};
    }
  }

  // ---- A difference names the files and links that the walks visit ----

  /** A file or link with that hash is visited at the path. */
  ghost predicate VisitsAt(vs: seq<Visit>, p: string, h: Hash) {
    exists i :: 0 <= i < |vs| && vs[i].path == p && vs[i].entry.hash == h && (vs[i].entry.kind == FILE || vs[i].entry.kind == SYMLINK)
  }

  ghost predicate VisitsSome(vs: seq<Visit>, p: string) {
    exists h :: VisitsAt(vs, p, h)
  }

  lemma VisitsAtNext(vs: seq<Visit>, v: Visit, p: string, h: Hash)
    ensures VisitsAt(vs + [v], p, h)
            <==> VisitsAt(vs, p, h) || (v.path == p && v.entry.hash == h && (v.entry.kind == FILE || v.entry.kind == SYMLINK))
  {
    var all := vs + [v];
    assert all[|vs|] == v;
    if VisitsAt(vs, p, h) {
      var i :| 0 <= i < |vs| && vs[i].path == p && vs[i].entry.hash == h && (vs[i].entry.kind == FILE || vs[i].entry.kind == SYMLINK);
      assert all[i] == vs[i];
    }
  }

  lemma {:induction false} LeavesAreVisited(vs: seq<Visit>, p: string, h: Hash)
    requires DistinctPaths(vs)
    ensures VisitsAt(vs, p, h) <==> p in Leaves(vs) && Leaves(vs)[p] == h
  {
    if vs != [] {
      var init, v := vs[..|vs| - 1], vs[|vs| - 1];
      assert vs == init + [v];
      LeavesAreVisited(init, p, h);
      VisitsAtNext(init, v, p, h);
      assert VisitsAt(init, p, h) ==> p != v.path;
      LeavesNext(vs, |vs| - 1);
      assert vs[..|vs| - 1 + 1] == vs;
      hide VisitsAt, DistinctPaths;
    }
  }

  lemma LeavesHave(vs: seq<Visit>, p: string)
    requires DistinctPaths(vs)
    ensures p in Leaves(vs) <==> VisitsSome(vs, p)
  {
    hide Leaves, VisitsAt, DistinctPaths;
    if p in Leaves(vs) {
      LeavesAreVisited(vs, p, Leaves(vs)[p]);
    }
    if VisitsSome(vs, p) {
      var h :| VisitsAt(vs, p, h);
      LeavesAreVisited(vs, p, h);
    }
  }

  /** The three lists in terms of the two walks: what only the new one visits as a file or link, what only the
      old one does, and what both do under different hashes. */
  ghost predicate NamesChanges(d: SnapshotDiff, was: seq<Visit>, now: seq<Visit>) {
    && (forall p :: p in d.added <==> VisitsSome(now, p) && !VisitsSome(was, p))
    && (forall p :: p in d.removed <==> VisitsSome(was, p) && !VisitsSome(now, p))
    && (forall p :: p in d.modified <==> exists g, h :: VisitsAt(was, p, g) && VisitsAt(now, p, h) && g != h)
  }

  lemma SeparatesIsNames(d: SnapshotDiff, was: seq<Visit>, now: seq<Visit>)
    requires DistinctPaths(was) && DistinctPaths(now) && Separates(d, Leaves(was), Leaves(now))
    ensures NamesChanges(d, was, now)
  {
    hide Leaves, VisitsAt, VisitsSome, DistinctPaths, NoRepeats;
    forall p ensures p in Leaves(was) <==> VisitsSome(was, p) { LeavesHave(was, p); }
    forall p ensures p in Leaves(now) <==> VisitsSome(now, p) { LeavesHave(now, p); }
    forall p ensures p in d.modified <==> exists g, h :: VisitsAt(was, p, g) && VisitsAt(now, p, h) && g != h {
      ModifiedIs(was, now, p);
    }
  }

  lemma ModifiedIs(was: seq<Visit>, now: seq<Visit>, p: string)
    requires DistinctPaths(was) && DistinctPaths(now)
    ensures p in Changed(Leaves(was), Leaves(now)) <==> exists g, h :: VisitsAt(was, p, g) && VisitsAt(now, p, h) && g != h
  {
    hide Leaves, VisitsAt, DistinctPaths;
    var a, b := Leaves(was), Leaves(now);
    if p in Changed(a, b) {
      LeavesAreVisited(was, p, a[p]);
      LeavesAreVisited(now, p, b[p]);
    }
    if exists g, h :: VisitsAt(was, p, g) && VisitsAt(now, p, h) && g != h {
      var g, h :| VisitsAt(was, p, g) && VisitsAt(now, p, h) && g != h;
      LeavesAreVisited(was, p, g);
      LeavesAreVisited(now, p, h);
    }
  }

  /** Between two content-addressed, well-formed snapshots a difference names exactly the paths at which a file
      or link came, went, or got another hash; the early return on equal roots included. */
  lemma DiffNamesChanges(
    c: Codec, s: Snapshot, t: Snapshot, rank: Hash -> nat, tRank: Hash -> nat, r: Result<SnapshotDiff, Error>)
    requires Acyclic(c, s, rank) && Acyclic(c, t, tRank) && WellFormed(c, s) && WellFormed(c, t)
    requires ContentAddressed(c, s) && ContentAddressed(c, t) && CollisionFree(c.digest, s.trees.Values + t.trees.Values)
    requires IsDiff(r, s.root, Some(t.root), Walk(c, s, rank), Walk(c, t, tRank))
    ensures Walk(c, s, rank).Ok? && Walk(c, t, tRank).Ok? && r.Ok?
    ensures NamesChanges(r.value, Walk(c, t, tRank).value, Walk(c, s, rank).value)
  {
    hide *;
    WalkVisitsOnce(c, s, rank);
    WalkVisitsOnce(c, t, tRank);
    DiffIsExactPatch(c, s, t, rank, tRank, r);
    SeparatesIffExactPatch(r.value, Leaves(Walk(c, t, tRank).value), Leaves(Walk(c, s, rank).value));
    SeparatesIsNames(r.value, Walk(c, t, tRank).value, Walk(c, s, rank).value);
  }

  /** Without an old snapshot every file and link is added. */
  lemma FirstDiffAddsAll(c: Codec, s: Snapshot, rank: Hash -> nat, r: Result<SnapshotDiff, Error>)
    requires Acyclic(c, s, rank) && WellFormed(c, s) && IsDiff(r, s.root, None, Walk(c, s, rank), Ok([]))
    ensures Walk(c, s, rank).Ok? && r.Ok? && r.value.removed == r.value.modified == [] && r.value.newRoot == s.root
    ensures forall i :: 0 <= i < 32 ==> r.value.oldRoot[i] == 0
    ensures forall p :: p in r.value.added <==> VisitsSome(Walk(c, s, rank).value, p)
  {
    WalkVisitsOnce(c, s, rank);
    hide Acyclic, WellFormed, Walk, VisitsSome;
    var vs: seq<Visit> := [];
    assert DistinctPaths(vs) && Leaves(vs) == map[];
    SeparatesIsNames(r.value, vs, Walk(c, s, rank).value);
    NothingVisited();
    HasMember(r.value.removed);
    HasMember(r.value.modified);
    hide Leaves, DistinctPaths;
  }

  lemma HasMember(xs: seq<string>)
    ensures xs != [] ==> exists x :: x in xs
  {
    if xs != [] {
      assert xs[0] in xs;
    }
  }

  lemma NothingVisited()
    ensures forall p :: !VisitsSome([], p)
    ensures forall p, h :: !VisitsAt([], p, h)
  {
  }
}

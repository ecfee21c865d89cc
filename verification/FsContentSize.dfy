/** The total size of all blobs referenced by filesystem snapshots: a depth-first walk over the shared
    Merkle DAG of tree objects, with one visited set threaded through all roots. */
module FsContentSize {
  import opened Basics

  /** A parsed tree entry. `hash` is None when the stored digest does not have 32 bytes. */
  datatype TreeEntry = TreeEntry(kind: nat, hash: Option<Hash>)

  const DIRECTORY: nat := 1

  /** `rawLen` is the blob index; `trees` holds the entries of the blobs that load and parse as trees. */
  datatype BlobStore = BlobStore(rawLen: map<Hash, nat>, trees: map<Hash, seq<TreeEntry>>)

  /** A hash together with the way it is referred to: as a directory (or root), or as a file or symlink. */
  datatype Ref = Ref(hash: Hash, dir: bool)

  function RawLen(store: BlobStore, h: Hash): nat {
    if h in store.rawLen then store.rawLen[h] else 0
  }

  /** The usable references of a list of entries, in order. */
  function RefsOf(entries: seq<TreeEntry>): seq<Ref> {
    if entries == [] then []
    else
      var rest := RefsOf(entries[1..]);
      if entries[0].hash.Some? then [Ref(entries[0].hash.value, entries[0].kind == DIRECTORY)] + rest
      else rest
  }

  /** What a tree object refers to; nothing when it cannot be loaded. */
  function Refs(store: BlobStore, h: Hash): seq<Ref> {
    if h in store.trees then RefsOf(store.trees[h]) else []
  }

  /** A tree refers to exactly the hashes of its entries that have 32 bytes, as directories or not by their
      kind. */
  lemma {:induction false} RefsOfIff(entries: seq<TreeEntry>, h: Hash, dir: bool)
    ensures Ref(h, dir) in RefsOf(entries)
            <==> exists i :: 0 <= i < |entries| && entries[i].hash == Some(h) && (dir <==> entries[i].kind == 1)
  {
    if entries != [] {
      var rest := entries[1..];
      RefsOfIff(rest, h, dir);
      if Ref(h, dir) in RefsOf(rest) {
        var i :| 0 <= i < |rest| && rest[i].hash == Some(h) && (dir <==> rest[i].kind == 1);
        assert entries[i + 1] == rest[i];
      }
      if exists i :: 0 < i < |entries| && entries[i].hash == Some(h) && (dir <==> entries[i].kind == 1) {
        var i :| 0 < i < |entries| && entries[i].hash == Some(h) && (dir <==> entries[i].kind == 1);
        assert rest[i - 1] == entries[i];
      }
    }
  }

  /** A tree that is not stored or cannot be read refers to nothing. */
  lemma NoTreeNoRefs(store: BlobStore, h: Hash)
    ensures h !in store.trees ==> Refs(store, h) == []
    ensures h in store.trees ==> Refs(store, h) == RefsOf(store.trees[h])
  {
  }

  // ---- Declarative side: reachability ----

  /** `p` starts at a root and follows one reference of a directory at a time. */
  ghost predicate RefPath(store: BlobStore, roots: set<Hash>, p: seq<Ref>) {
    && p != []
    && if |p| == 1 then p[0].dir && p[0].hash in roots
       else RefPath(store, roots, p[..|p| - 1]) && p[|p| - 2].dir && p[|p| - 1] in Refs(store, p[|p| - 2].hash)
  }

  ghost predicate Reached(store: BlobStore, roots: set<Hash>, r: Ref) {
    exists p :: RefPath(store, roots, p) && p[|p| - 1] == r
  }

  ghost function Mentioned(store: BlobStore, roots: set<Hash>): set<Hash> {
    roots + set t, r | t in store.trees && r in Refs(store, t) :: r.hash
  }

  ghost function ReachedHashes(store: BlobStore, roots: set<Hash>): set<Hash> {
    set h | h in Mentioned(store, roots) && (Reached(store, roots, Ref(h, true)) || Reached(store, roots, Ref(h, false)))
  }

  /** No reachable hash that names a tree with entries is referred to both as a directory (or root) and
      as a file or symlink. */
  ghost predicate NoConflict(store: BlobStore, roots: set<Hash>) {
    forall h :: Reached(store, roots, Ref(h, true)) && Reached(store, roots, Ref(h, false)) ==> Refs(store, h) == []
  }

  ghost function SumLen(store: BlobStore, s: set<Hash>): nat {
    if s == {} then 0 else
      var h :| h in s;
      RawLen(store, h) + SumLen(store, s - {h})
  }

  lemma {:induction false} SumLenAdd(store: BlobStore, s: set<Hash>, h: Hash)
    requires h !in s
    ensures SumLen(store, s + {h}) == SumLen(store, s) + RawLen(store, h)
  {
    var t := s + {h};
    var x :| x in t && SumLen(store, t) == RawLen(store, x) + SumLen(store, t - {x});
    if x == h {
      assert t - {x} == s;
    } else {
      SumLenAdd(store, s - {x}, h);
      SumLenAdd(store, s - {x}, x);
      assert t - {x} == (s - {x}) + {h};
      assert s == (s - {x}) + {x};
    }
  }

  /** The sum is that of the raw lengths in the blob index; what is not there counts nothing. */
  lemma SumLenIs(store: BlobStore, s: set<Hash>, h: Hash)
    ensures SumLen(store, {}) == 0
    ensures h !in s ==> SumLen(store, s + {h}) == SumLen(store, s) + if h in store.rawLen then store.rawLen[h] else 0
  {
    if h !in s {
      SumLenAdd(store, s, h);
    }
  }

  lemma {:induction false} SumLenUnion(store: BlobStore, s: set<Hash>, t: set<Hash>)
    requires s !! t
    ensures SumLen(store, s + t) == SumLen(store, s) + SumLen(store, t)
  {
    if t == {} {
      assert s + t == s;
    } else {
      var h :| h in t;
      SumLenUnion(store, s, t - {h});
      SumLenAdd(store, s + (t - {h}), h);
      SumLenAdd(store, t - {h}, h);
      assert s + t == s + (t - {h}) + {h};
      assert t == (t - {h}) + {h};
    }
  }

  // ---- The walk as a function of the marks made so far ----

  ghost function Hashes(marks: set<Ref>): set<Hash> {
    set r | r in marks :: r.hash
  }

  /** The marks after visiting `r`: the walk remembers hashes only, so a hash marked as a file is
      skipped when it turns up again as a directory. */
  ghost function Visit(store: BlobStore, r: Ref, marks: set<Ref>): (marks': set<Ref>)
    ensures marks <= marks'
    decreases store.trees.Keys - Hashes(marks), 0, 0
  {
    if r.hash in Hashes(marks) then marks
    else if !r.dir || r.hash !in store.trees then marks + {r}
    else
      Marking(marks, r);
      VisitAll(store, Refs(store, r.hash), marks + {r})
  }

  ghost function VisitAll(store: BlobStore, rs: seq<Ref>, marks: set<Ref>): (marks': set<Ref>)
    ensures marks <= marks'
    decreases store.trees.Keys - Hashes(marks), 1, |rs|
  {
    if rs == [] then marks
    else
      var next := Visit(store, rs[0], marks);
      assert Hashes(marks) <= Hashes(next);
      VisitAll(store, rs[1..], next)
  }

  lemma Marking(marks: set<Ref>, r: Ref)
    ensures Hashes(marks + {r}) == Hashes(marks) + {r.hash}
  {
    assert r in marks + {r};
    forall h | h in Hashes(marks) ensures h in Hashes(marks + {r}) {
      var q :| q in marks && q.hash == h;
      assert q in marks + {r};
    }
  }

  /** Each directory marked beyond `from` has all its references marked in `to`. */
  ghost predicate Expanded(store: BlobStore, from: set<Ref>, to: set<Ref>) {
    forall d, r :: d in to && d !in from && d.dir && r in Refs(store, d.hash) ==> r.hash in Hashes(to)
  }

  lemma {:induction false} VisitExpands(store: BlobStore, r: Ref, marks: set<Ref>)
    ensures r.hash in Hashes(Visit(store, r, marks))
    ensures Expanded(store, marks, Visit(store, r, marks))
    decreases store.trees.Keys - Hashes(marks), 0, 0
  {
    Marking(marks, r);
    if r.hash !in Hashes(marks) && r.dir && r.hash in store.trees {
      VisitAllExpands(store, Refs(store, r.hash), marks + {r});
    }
  }

  lemma {:induction false} VisitAllExpands(store: BlobStore, rs: seq<Ref>, marks: set<Ref>)
    ensures forall r :: r in rs ==> r.hash in Hashes(VisitAll(store, rs, marks))
    ensures Expanded(store, marks, VisitAll(store, rs, marks))
    decreases store.trees.Keys - Hashes(marks), 1, |rs|
  {
    if rs != [] {
      var next := Visit(store, rs[0], marks);
      assert Hashes(marks) <= Hashes(next);
      VisitExpands(store, rs[0], marks);
      VisitAllExpands(store, rs[1..], next);
      assert Hashes(next) <= Hashes(VisitAll(store, rs[1..], next));
    }
  }

  /** Every mark is a reachable reference. */
  ghost predicate Sound(store: BlobStore, roots: set<Hash>, marks: set<Ref>) {
    forall r :: r in marks ==> Reached(store, roots, r)
  }

  lemma ReachedStep(store: BlobStore, roots: set<Hash>, d: Ref, r: Ref)
    requires Reached(store, roots, d) && d.dir && r in Refs(store, d.hash)
    ensures Reached(store, roots, r)
  {
    var p :| RefPath(store, roots, p) && p[|p| - 1] == d;
    assert (p + [r])[..|p|] == p;
    assert RefPath(store, roots, p + [r]);
  }

  lemma {:induction false} VisitIsSound(store: BlobStore, roots: set<Hash>, r: Ref, marks: set<Ref>)
    requires Sound(store, roots, marks) && Reached(store, roots, r)
    ensures Sound(store, roots, Visit(store, r, marks))
    decreases store.trees.Keys - Hashes(marks), 0, 0
  {
    Marking(marks, r);
    if r.hash !in Hashes(marks) && r.dir && r.hash in store.trees {
      forall q | q in Refs(store, r.hash) ensures Reached(store, roots, q) {
        ReachedStep(store, roots, r, q);
      }
      VisitAllIsSound(store, roots, Refs(store, r.hash), marks + {r});
    }
  }

  lemma {:induction false} VisitAllIsSound(store: BlobStore, roots: set<Hash>, rs: seq<Ref>, marks: set<Ref>)
    requires Sound(store, roots, marks) && forall r :: r in rs ==> Reached(store, roots, r)
    ensures Sound(store, roots, VisitAll(store, rs, marks))
    decreases store.trees.Keys - Hashes(marks), 1, |rs|
  {
    if rs != [] {
      VisitIsSound(store, roots, rs[0], marks);
      assert Hashes(marks) <= Hashes(Visit(store, rs[0], marks));
      VisitAllIsSound(store, roots, rs[1..], Visit(store, rs[0], marks));
    }
  }

  lemma MarksAreReached(store: BlobStore, roots: set<Hash>, marks: set<Ref>)
    requires Sound(store, roots, marks)
    ensures Hashes(marks) <= ReachedHashes(store, roots)
  {
    forall r | r in marks ensures r.hash in ReachedHashes(store, roots) {
      var p: seq<Ref> :| RefPath(store, roots, p) && p[|p| - 1] == r;
      if |p| > 1 {
        var t := p[|p| - 2].hash;
        assert t in store.trees && r in Refs(store, t);
      }
      assert r == Ref(r.hash, true) || r == Ref(r.hash, false);
    }
  }

  /** Without a conflict, a reachable tree with entries is marked as a directory once its hash is marked. */
  lemma MarkedAsDirectory(store: BlobStore, roots: set<Hash>, marks: set<Ref>, r: Ref)
    requires Sound(store, roots, marks) && NoConflict(store, roots)
    requires Reached(store, roots, r) && r.dir && r.hash in Hashes(marks) && Refs(store, r.hash) != []
    ensures r in marks
  {
    var m :| m in marks && m.hash == r.hash;
    assert r == Ref(r.hash, true) && m == Ref(r.hash, m.dir);
  }

  /** Sound, root-covering, expanded marks hold every reachable hash when there is no conflict. */
  lemma {:induction false} PathIsMarked(store: BlobStore, roots: set<Hash>, marks: set<Ref>, p: seq<Ref>)
    requires Sound(store, roots, marks) && NoConflict(store, roots)
    requires roots <= Hashes(marks) && Expanded(store, {}, marks)
    requires RefPath(store, roots, p)
    ensures p[|p| - 1].hash in Hashes(marks)
  {
    hide NoConflict;
    if |p| > 1 {
      var d := p[|p| - 2];
      PathIsMarked(store, roots, marks, p[..|p| - 1]);
      assert Reached(store, roots, d);
      MarkedAsDirectory(store, roots, marks, d);
    }
  }

  lemma ReachedIsMarked(store: BlobStore, roots: set<Hash>, marks: set<Ref>, r: Ref)
    requires Sound(store, roots, marks) && NoConflict(store, roots)
    requires roots <= Hashes(marks) && Expanded(store, {}, marks)
    requires Reached(store, roots, r)
    ensures r.hash in Hashes(marks)
  {
    var p :| RefPath(store, roots, p) && p[|p| - 1] == r;
    PathIsMarked(store, roots, marks, p);
  }

  /** The references that start the walk. */
  function RootRefs(roots: seq<Hash>): (rs: seq<Ref>)
    ensures |rs| == |roots| && forall i :: 0 <= i < |roots| ==> rs[i] == Ref(roots[i], true)
  {
    seq(|roots|, i requires 0 <= i < |roots| => Ref(roots[i], true))
  }

  ghost function FinalMarks(store: BlobStore, roots: seq<Hash>): set<Ref> {
    VisitAll(store, RootRefs(roots), {})
  }

  /** The final marks cover the roots, are sound and are closed under references. */
  lemma FinalMarksAreClosed(store: BlobStore, roots: seq<Hash>)
    ensures var marks, rootSet := FinalMarks(store, roots), set r | r in roots;
            Sound(store, rootSet, marks) && rootSet <= Hashes(marks) && Expanded(store, {}, marks)
  {
    var rootSet := set r | r in roots;
    var rs, marks := RootRefs(roots), FinalMarks(store, roots);
    forall r | r in rs ensures Reached(store, rootSet, r) {
      assert RefPath(store, rootSet, [r]);
    }
    VisitAllIsSound(store, rootSet, rs, {});
    VisitAllExpands(store, rs, {});
    forall h | h in rootSet ensures h in Hashes(marks) {
      var i :| 0 <= i < |roots| && roots[i] == h;
      assert rs[i] in rs;
    }
  }

  /** The walk never counts anything unreachable, and without a conflict it counts exactly the
      reachable hashes, in whatever order the roots and the entries are listed. */
  lemma WalkIsClosure(store: BlobStore, roots: seq<Hash>)
    ensures var all := ReachedHashes(store, set r | r in roots);
            && Hashes(FinalMarks(store, roots)) <= all
            && (NoConflict(store, set r | r in roots) ==> Hashes(FinalMarks(store, roots)) == all)
  {
    hide FinalMarks, Sound, Expanded, NoConflict;
    var rootSet := set r | r in roots;
    var marks := FinalMarks(store, roots);
    FinalMarksAreClosed(store, roots);
    MarksAreReached(store, rootSet, marks);
    if NoConflict(store, rootSet) {
      forall h | h in ReachedHashes(store, rootSet) ensures h in Hashes(marks) {
        var r := if Reached(store, rootSet, Ref(h, true)) then Ref(h, true) else Ref(h, false);
        ReachedIsMarked(store, rootSet, marks, r);
      }
    }
  }

  lemma VisitAllCons(store: BlobStore, r: Ref, rs: seq<Ref>, marks: set<Ref>)
    ensures VisitAll(store, [r] + rs, marks) == VisitAll(store, rs, Visit(store, r, marks))
  {
    assert ([r] + rs)[1..] == rs;
  }

  /** A root that lists tree `x` first as a file and then as a directory; `x` lists the file `y`. */
  ghost function Conflicting(root: Hash, x: Hash, y: Hash): BlobStore {
    BlobStore(map[root := 1, x := 1, y := 5],
              map[root := [TreeEntry(0, Some(x)), TreeEntry(DIRECTORY, Some(x))], x := [TreeEntry(0, Some(y))]])
  }

  lemma ConflictingRefs(root: Hash, x: Hash, y: Hash)
    requires root != x && x != y && root != y
    ensures Refs(Conflicting(root, x, y), root) == [Ref(x, false), Ref(x, true)]
    ensures Refs(Conflicting(root, x, y), x) == [Ref(y, false)]
  {
    var asFile, asDir, leaf := TreeEntry(0, Some(x)), TreeEntry(DIRECTORY, Some(x)), TreeEntry(0, Some(y));
    assert [asFile, asDir][1..] == [asDir] && [asDir][1..] == [] && [leaf][1..] == [];
    assert RefsOf([asDir]) == [Ref(x, true)];
  }

  lemma ConflictingMarks(root: Hash, x: Hash, y: Hash)
    requires root != x && x != y && root != y
    ensures FinalMarks(Conflicting(root, x, y), [root]) == {Ref(root, true), Ref(x, false)}
  {
    var store := Conflicting(root, x, y);
    var r, f, d := Ref(root, true), Ref(x, false), Ref(x, true);
    ConflictingRefs(root, x, y);
    Marking({}, r);
    Marking({r}, f);
    assert [d] + [] == [d] && [f] + [d] == [f, d] && [r] + [] == [r] && RootRefs([root]) == [r];
    assert Hashes({}) == {} && {} + {r} == {r} && {r} + {f} == {r, f};
    assert Visit(store, f, {r}) == {r, f} && Visit(store, d, {r, f}) == {r, f};
    VisitAllCons(store, d, [], {r, f});
    VisitAllCons(store, f, [d], {r});
    assert Visit(store, r, {}) == VisitAll(store, [f, d], {r});
    VisitAllCons(store, r, [], {});
  }

  /** The condition is needed: the walk misses `y`, although `y` is reachable. */
  lemma ConflictLosesBytes(root: Hash, x: Hash, y: Hash)
    requires root != x && x != y && root != y
    ensures !NoConflict(Conflicting(root, x, y), {root})
    ensures y !in Hashes(FinalMarks(Conflicting(root, x, y), [root]))
    ensures y in ReachedHashes(Conflicting(root, x, y), {root})
  {
    hide *;
    ConflictingRefs(root, x, y);
    ConflictingMarks(root, x, y);
    ConflictingReach(root, x, y);
    TwoHashes(root, x, y);
    ReachedIsIn(Conflicting(root, x, y), {root}, Ref(y, false));
    HasConflict(Conflicting(root, x, y), {root}, x);
  }

  lemma TwoHashes(root: Hash, x: Hash, y: Hash)
    requires y != root && y != x
    ensures y !in Hashes({Ref(root, true), Ref(x, false)})
  {
  }

  lemma ReachedIsIn(store: BlobStore, roots: set<Hash>, r: Ref)
    requires Reached(store, roots, r)
    ensures r.hash in ReachedHashes(store, roots)
  {
    hide ReachedHashes;
    MarksAreReached(store, roots, {r});
    assert r in {r};
  }

  lemma HasConflict(store: BlobStore, roots: set<Hash>, h: Hash)
    requires Reached(store, roots, Ref(h, true)) && Reached(store, roots, Ref(h, false)) && Refs(store, h) != []
    ensures !NoConflict(store, roots)
  {
    hide Reached, Refs;
  }

  lemma ConflictingReach(root: Hash, x: Hash, y: Hash)
    requires root != x && x != y && root != y
    ensures var store := Conflicting(root, x, y);
            Reached(store, {root}, Ref(x, true)) && Reached(store, {root}, Ref(x, false)) && Reached(store, {root}, Ref(y, false))
  {
    var store, r, d := Conflicting(root, x, y), Ref(root, true), Ref(x, true);
    ConflictingRefs(root, x, y);
    hide Conflicting, Refs;
    assert RefPath(store, {root}, [r]);
    ReachedStep(store, {root}, r, d);
    ReachedStep(store, {root}, r, Ref(x, false));
    ReachedStep(store, {root}, d, Ref(y, false));
  }

  // ---- Exactly what is counted, conflicts or not ----

  /** The hashes that the walk met as a file or symlink first; it never looks into them. */
  ghost function Hidden(marks: set<Ref>): set<Hash> {
    set r | r in marks && !r.dir :: r.hash
  }

  /** A path that goes through no directory that is hidden; it may end at one. */
  ghost predicate OpenPath(store: BlobStore, roots: set<Hash>, hidden: set<Hash>, p: seq<Ref>) {
    RefPath(store, roots, p) && forall i :: 0 <= i < |p| - 1 ==> p[i].hash !in hidden
  }

  ghost predicate OpenlyReached(store: BlobStore, roots: set<Hash>, hidden: set<Hash>, h: Hash) {
    exists p: seq<Ref> :: OpenPath(store, roots, hidden, p) && p[|p| - 1].hash == h
  }

  /** A path through marked references; its end need not be marked. */
  ghost predicate MarkedPath(store: BlobStore, roots: set<Hash>, marks: set<Ref>, p: seq<Ref>) {
    RefPath(store, roots, p) && forall i :: 0 <= i < |p| - 1 ==> p[i] in marks
  }

  ghost predicate Via(store: BlobStore, roots: set<Hash>, marks: set<Ref>, r: Ref) {
    exists p :: MarkedPath(store, roots, marks, p) && p[|p| - 1] == r
  }

  /** Each hash is marked in one way only, and each mark was come by through marks. */
  ghost predicate WellMarked(store: BlobStore, roots: set<Hash>, marks: set<Ref>) {
    Once(marks) && forall r :: r in marks ==> Via(store, roots, marks, r)
  }

  ghost predicate Once(marks: set<Ref>) {
    forall a, b :: a in marks && b in marks && a.hash == b.hash ==> a == b
  }

  lemma OnceMore(marks: set<Ref>, r: Ref)
    requires Once(marks) && r.hash !in Hashes(marks)
    ensures Once(marks + {r})
  {
    forall q | q in marks ensures q.hash != r.hash {
      assert q.hash in Hashes(marks);
    }
    hide Hashes;
  }

  lemma ViaMore(store: BlobStore, roots: set<Hash>, marks: set<Ref>, more: set<Ref>, r: Ref)
    requires Via(store, roots, marks, r) && marks <= more
    ensures Via(store, roots, more, r)
  {
    var p :| MarkedPath(store, roots, marks, p) && p[|p| - 1] == r;
    assert MarkedPath(store, roots, more, p);
  }

  lemma ViaStep(store: BlobStore, roots: set<Hash>, marks: set<Ref>, d: Ref, r: Ref)
    requires Via(store, roots, marks, d) && d in marks && d.dir && r in Refs(store, d.hash)
    ensures Via(store, roots, marks, r)
  {
    var p :| MarkedPath(store, roots, marks, p) && p[|p| - 1] == d;
    var q := p + [r];
    assert q[..|p|] == p;
    assert MarkedPath(store, roots, marks, q);
  }

  lemma MarkOne(store: BlobStore, roots: set<Hash>, marks: set<Ref>, r: Ref)
    requires WellMarked(store, roots, marks) && Via(store, roots, marks, r) && r.hash !in Hashes(marks)
    ensures WellMarked(store, roots, marks + {r})
  {
    hide Via, Once, Hashes;
    OnceMore(marks, r);
    forall q | q in marks + {r} ensures Via(store, roots, marks + {r}, q) {
      ViaMore(store, roots, marks, marks + {r}, q);
    }
  }

  lemma {:induction false} VisitMarksWell(store: BlobStore, roots: set<Hash>, r: Ref, marks: set<Ref>)
    requires WellMarked(store, roots, marks) && Via(store, roots, marks, r)
    ensures WellMarked(store, roots, Visit(store, r, marks))
    decreases store.trees.Keys - Hashes(marks), 0, 0
  {
    hide WellMarked, Via;
    Marking(marks, r);
    if r.hash !in Hashes(marks) {
      MarkOne(store, roots, marks, r);
      if r.dir && r.hash in store.trees {
        forall q | q in Refs(store, r.hash) ensures Via(store, roots, marks + {r}, q) {
          ViaMore(store, roots, marks, marks + {r}, r);
          ViaStep(store, roots, marks + {r}, r, q);
        }
        VisitAllMarksWell(store, roots, Refs(store, r.hash), marks + {r});
      }
    }
  }

  lemma {:induction false} VisitAllMarksWell(store: BlobStore, roots: set<Hash>, rs: seq<Ref>, marks: set<Ref>)
    requires WellMarked(store, roots, marks) && forall r :: r in rs ==> Via(store, roots, marks, r)
    ensures WellMarked(store, roots, VisitAll(store, rs, marks))
    decreases store.trees.Keys - Hashes(marks), 1, |rs|
  {
    hide WellMarked, Via;
    if rs != [] {
      var next := Visit(store, rs[0], marks);
      VisitMarksWell(store, roots, rs[0], marks);
      assert Hashes(marks) <= Hashes(next);
      forall r | r in rs[1..] ensures Via(store, roots, next, r) {
        assert r in rs;
        ViaMore(store, roots, marks, next, r);
      }
      VisitAllMarksWell(store, roots, rs[1..], next);
    }
  }

  lemma FinalMarksAreWell(store: BlobStore, roots: seq<Hash>)
    ensures WellMarked(store, (set r | r in roots), FinalMarks(store, roots))
  {
    var rootSet := set r | r in roots;
    forall r | r in RootRefs(roots) ensures Via(store, rootSet, {}, r) {
      assert MarkedPath(store, rootSet, {}, [r]);
    }
    VisitAllMarksWell(store, rootSet, RootRefs(roots), {});
  }

  /** Along an open path everything is marked. */
  lemma {:induction false} OpenIsMarked(store: BlobStore, roots: set<Hash>, marks: set<Ref>, p: seq<Ref>)
    requires roots <= Hashes(marks) && Expanded(store, {}, marks) && OpenPath(store, roots, Hidden(marks), p)
    ensures p[|p| - 1].hash in Hashes(marks)
  {
    if |p| > 1 {
      var init := p[..|p| - 1];
      var d := p[|p| - 2];
      assert forall i :: 0 <= i < |init| - 1 ==> init[i] == p[i];
      OpenIsMarked(store, roots, marks, init);
      var m :| m in marks && m.hash == d.hash;
      assert d.hash !in Hidden(marks);
      assert m == d;
    }
  }

  /** The walk counts a hash iff some path leads to it through no directory that was met as a file first. */
  lemma CountedIff(store: BlobStore, roots: seq<Hash>, h: Hash)
    ensures var marks := FinalMarks(store, roots);
            h in Hashes(marks) <==> OpenlyReached(store, (set r | r in roots), Hidden(marks), h)
  {
    var rootSet, marks := (set r | r in roots), FinalMarks(store, roots);
    FinalMarksAreClosed(store, roots);
    FinalMarksAreWell(store, roots);
    hide FinalMarks;
    if h in Hashes(marks) {
      var r :| r in marks && r.hash == h;
      assert Via(store, rootSet, marks, r);
      var p: seq<Ref> :| MarkedPath(store, rootSet, marks, p) && p[|p| - 1] == r;
      forall i | 0 <= i < |p| - 1 ensures p[i].hash !in Hidden(marks) {
        PathIsDirs(store, rootSet, p, i);
      }
      assert OpenPath(store, rootSet, Hidden(marks), p);
    }
    if OpenlyReached(store, rootSet, Hidden(marks), h) {
      var p: seq<Ref> :| OpenPath(store, rootSet, Hidden(marks), p) && p[|p| - 1].hash == h;
      OpenIsMarked(store, rootSet, marks, p);
    }
  }

  lemma {:induction false} PathIsDirs(store: BlobStore, roots: set<Hash>, p: seq<Ref>, i: nat)
    requires RefPath(store, roots, p) && i < |p| - 1
    ensures p[i].dir
    decreases |p|
  {
    if i < |p| - 2 {
      PathIsDirs(store, roots, p[..|p| - 1], i);
    }
  }

  /** What can be said before the walk: a hash is counted if some path leads to it through no hash that is
      reachable both as a directory and as a file. */
  lemma PlainPathIsCounted(store: BlobStore, roots: seq<Hash>, p: seq<Ref>)
    requires RefPath(store, (set r | r in roots), p)
    requires forall i :: 0 <= i < |p| - 1 ==> !Ambiguous(store, (set r | r in roots), p[i].hash)
    ensures p[|p| - 1].hash in Hashes(FinalMarks(store, roots))
  {
    var rootSet, marks := (set r | r in roots), FinalMarks(store, roots);
    FinalMarksAreClosed(store, roots);
    hide FinalMarks, Expanded;
    forall h | h in Hidden(marks) ensures Reached(store, rootSet, Ref(h, false)) {
      var m :| m in marks && !m.dir && m.hash == h;
      assert m == Ref(h, false);
    }
    forall i | 0 <= i < |p| - 1 ensures p[i].hash !in Hidden(marks) {
      PathIsDirs(store, rootSet, p, i);
      PrefixIsPath(store, rootSet, p, i + 1);
      assert p[..i + 1][|p[..i + 1]| - 1] == p[i] == Ref(p[i].hash, true);
      assert Reached(store, rootSet, p[i]);
    }
    assert OpenPath(store, rootSet, Hidden(marks), p);
    hide OpenPath, RefPath, Hidden;
    assert OpenlyReached(store, rootSet, Hidden(marks), p[|p| - 1].hash);
    CountedIff(store, roots, p[|p| - 1].hash);
  }

  /** Reachable both as a directory (or root) and as a file or symlink. */
  ghost predicate Ambiguous(store: BlobStore, roots: set<Hash>, h: Hash) {
    Reached(store, roots, Ref(h, true)) && Reached(store, roots, Ref(h, false))
  }

  lemma {:induction false} PrefixIsPath(store: BlobStore, roots: set<Hash>, p: seq<Ref>, n: nat)
    requires RefPath(store, roots, p) && 0 < n <= |p|
    ensures RefPath(store, roots, p[..n])
    decreases |p|
  {
    if n < |p| {
      var init := p[..|p| - 1];
      assert init[..n] == p[..n];
      PrefixIsPath(store, roots, init, n);
    } else {
      assert p[..n] == p;
    }
  }

  /** So the walk misses exactly those reachable hashes that are reached only through such a directory. */
  lemma MissedIff(store: BlobStore, roots: seq<Hash>, h: Hash)
    requires h in ReachedHashes(store, set r | r in roots)
    ensures var marks := FinalMarks(store, roots);
            h !in Hashes(marks) <==>
              forall p: seq<Ref> :: RefPath(store, (set r | r in roots), p) && p[|p| - 1].hash == h ==>
                exists i :: 0 <= i < |p| - 1 && p[i].hash in Hidden(marks)
  {
    CountedIff(store, roots, h);
    hide FinalMarks, Hidden;
    var rootSet, marks := (set r | r in roots), FinalMarks(store, roots);
    if h !in Hashes(marks) {
      forall p: seq<Ref> | RefPath(store, rootSet, p) && p[|p| - 1].hash == h
        ensures exists i :: 0 <= i < |p| - 1 && p[i].hash in Hidden(marks)
      {
        assert !OpenPath(store, rootSet, Hidden(marks), p);
      }
    }
  }

  lemma SumLenMonotone(store: BlobStore, s: set<Hash>, t: set<Hash>)
    requires s <= t
    ensures SumLen(store, s) <= SumLen(store, t)
  {
    SumLenUnion(store, s, t - s);
    assert t == s + (t - s);
  }

  // ---- The code ----

  class TreeSizer {
    const store: BlobStore
    var visited: set<Hash>
    ghost var marks: set<Ref>

    ghost predicate Valid()
      reads this
    {
      visited == Hashes(marks)
    }

    constructor (store: BlobStore)
      ensures Valid() && visited == {} && marks == {} && this.store == store
    {
      this.store := store;
      visited, marks := {}, {};
    }

    method ComputeTreeSize(treeHash: Hash) returns (total: nat)
      requires Valid()
      modifies this
      ensures Valid() && old(visited) <= visited
      ensures marks == Visit(store, Ref(treeHash, true), old(marks))
      ensures total == SumLen(store, visited - old(visited))
      decreases store.trees.Keys - visited
    {
      ghost var r, visited0 := Ref(treeHash, true), visited;
      if treeHash in visited {
        assert visited - visited0 == {};
        return 0;
      }
      Marking(marks, r);
      visited := visited + {treeHash};
      marks := marks + {r};
      var treeSize := RawLen(store, treeHash);
      SumLenAdd(store, {}, treeHash);
      assert visited - visited0 == {} + {treeHash};
      if treeHash !in store.trees {
        return treeSize;
      }
      var entries := store.trees[treeHash];
      total := treeSize;
      ghost var final := VisitAll(store, RefsOf(entries), marks);
      for i := 0 to |entries|
        invariant Valid() && visited0 + {treeHash} <= visited
        invariant VisitAll(store, RefsOf(entries[i..]), marks) == final
        invariant total == SumLen(store, visited - visited0)
      {
        assert entries[i..][1..] == entries[i + 1..];
        if entries[i].hash.Some? {
          var hash := entries[i].hash.value;
          ghost var before := visited;
          ghost var q := Ref(hash, entries[i].kind == DIRECTORY);
          ghost var next := Visit(store, q, marks);
          assert RefsOf(entries[i..]) == [q] + RefsOf(entries[i + 1..]);
          if entries[i].kind == DIRECTORY {
            var size := ComputeTreeSize(hash);
            total := total + size;
          } else if hash !in visited {
            Marking(marks, q);
            visited := visited + {hash};
            marks := marks + {q};
            total := total + RawLen(store, hash);
            SumLenAdd(store, {}, hash);
            assert visited - before == {} + {hash};
          } else {
            assert visited - before == {};
          }
          assert marks == next;
          SumLenUnion(store, before - visited0, visited - before);
          assert visited - visited0 == (before - visited0) + (visited - before);
        }
      }
    }

    /** The size of everything reachable from the attached roots. */
    method ComputeFsContentBytes(uniqueRoots: seq<Hash>) returns (totalBytes: nat)
      requires Valid() && visited == {} && marks == {}
      modifies this
      ensures visited == Hashes(FinalMarks(store, uniqueRoots)) && totalBytes == SumLen(store, visited)
      ensures var all := ReachedHashes(store, set r | r in uniqueRoots);
              && totalBytes <= SumLen(store, all)
              && (NoConflict(store, set r | r in uniqueRoots) ==> totalBytes == SumLen(store, all))
    {
      totalBytes := 0;
      ghost var rs := RootRefs(uniqueRoots);
      for i := 0 to |uniqueRoots|
        invariant Valid() && totalBytes == SumLen(store, visited)
        invariant VisitAll(store, rs[i..], marks) == FinalMarks(store, uniqueRoots)
      {
        ghost var before := visited;
        assert rs[i..][1..] == rs[i + 1..];
        var size := ComputeTreeSize(uniqueRoots[i]);
        totalBytes := totalBytes + size;
        SumLenUnion(store, before, visited - before);
        assert visited == before + (visited - before);
      }
      WalkIsClosure(store, uniqueRoots);
      SumLenMonotone(store, visited, ReachedHashes(store, set r | r in uniqueRoots));
    }
  }
}

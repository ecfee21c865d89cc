/** Reading a filesystem snapshot: walking its trees, looking up a path, and comparing two snapshots. */
module Snapshots {
  import opened Basics
  import opened Text
  import opened Paths

  const FILE: nat := 0
  const DIRECTORY: nat := 1
  const SYMLINK: nat := 2

  datatype Entry = Entry(name: string, kind: nat, mode: nat, size: nat, hash: Hash)

  /** The serialisation of trees and the digest, as functions that are given. */
  datatype Codec = Codec(encode: seq<Entry> -> Bytes, decode: Bytes -> Option<seq<Entry>>, digest: Bytes -> Hash)

  datatype FileRef = FileRef(path: string, size: nat, hash: Hash)

  datatype Snapshot = Snapshot(
    root: Hash, trees: map<Hash, Bytes>, files: map<Hash, FileRef>, symlinks: map<Hash, Bytes>)

  datatype Error = TreeMissing | TreeCorrupt | EmptyPath | PathNotFound | NotADirectory | FileMissing | OpenFailed

  datatype Visit = Visit(path: string, entry: Entry)

  function GetTree(c: Codec, s: Snapshot, h: Hash): Result<seq<Entry>, Error> {
    if h !in s.trees then Err(TreeMissing)
    else if c.decode(s.trees[h]).None? then Err(TreeCorrupt)
    else Ok(c.decode(s.trees[h]).value)
  }

  /** No tree contains itself: `rank` goes down from a tree to its directories. */
  ghost predicate Acyclic(c: Codec, s: Snapshot, rank: Hash -> nat) {
    forall h, e :: GetTree(c, s, h).Ok? && e in GetTree(c, s, h).value && e.kind == DIRECTORY ==> rank(e.hash) < rank(h)
  }

  // ---- What the walk visits ----

  function ChildPath(prefix: string, name: string): string {
    if prefix == "" then name else JoinClean(prefix, name)
  }

  ghost function WalkTree(c: Codec, s: Snapshot, rank: Hash -> nat, h: Hash, prefix: string): Result<seq<Visit>, Error>
    requires Acyclic(c, s, rank)
    decreases rank(h), 1, 0
  {
    var es :- GetTree(c, s, h);
    WalkEntries(c, s, rank, h, es, prefix)
  }

  /** The entries `es` of tree `h`, each followed by what is below it. */
  ghost function WalkEntries(
    c: Codec, s: Snapshot, rank: Hash -> nat, h: Hash, es: seq<Entry>, prefix: string): Result<seq<Visit>, Error>
    requires Acyclic(c, s, rank)
    requires forall e :: e in es && e.kind == DIRECTORY ==> rank(e.hash) < rank(h)
    decreases rank(h), 0, |es|
  {
    if es == [] then Ok([])
    else
      var e := es[0];
      var path := ChildPath(prefix, e.name);
      var inner :- if e.kind == DIRECTORY then WalkTree(c, s, rank, e.hash, path) else Ok([]);
      var rest :- WalkEntries(c, s, rank, h, es[1..], prefix);
      Ok([Visit(path, e)] + inner + rest)
  }

  ghost function Walk(c: Codec, s: Snapshot, rank: Hash -> nat): Result<seq<Visit>, Error>
    requires Acyclic(c, s, rank)
  {
    WalkTree(c, s, rank, s.root, "")
  }

  class Walker {
    var visits: seq<Visit>

    constructor ()
      ensures visits == []
    {
      visits := [];
    }

    method VisitTree(c: Codec, s: Snapshot, ghost rank: Hash -> nat, h: Hash, prefix: string)
      returns (err: Option<Error>)
      requires Acyclic(c, s, rank)
      modifies this
      ensures match WalkTree(c, s, rank, h, prefix)
              case Ok(more) => err == None && visits == old(visits) + more
              case Err(e) => err == Some(e)
      decreases rank(h)
    {
      var tree := GetTree(c, s, h);
      if tree.Err? {
        return Some(tree.error);
      }
      var es := tree.value;
      ghost var target := WalkEntries(c, s, rank, h, es, prefix);
      assert WalkTree(c, s, rank, h, prefix) == target;
      assert forall e :: e in es && e.kind == DIRECTORY ==> rank(e.hash) < rank(h);
      assert es[0..] == es;
      hide WalkEntries, WalkTree, Acyclic, GetTree, ChildPath;
      for i := 0 to |es|
        invariant Joined(target, old(visits), WalkEntries(c, s, rank, h, es[i..], prefix), visits)
      {
        assert es[i..][1..] == es[i + 1..];
        var entry := es[i];
        var path := ChildPath(prefix, entry.name);
        ghost var start, rest := visits, WalkEntries(c, s, rank, h, es[i + 1..], prefix);
        EntriesFirst(c, s, rank, h, es[i..], prefix);
        visits := visits + [Visit(path, entry)];
        if entry.kind == DIRECTORY {
          ghost var inner := WalkTree(c, s, rank, entry.hash, path);
          var failed := VisitTree(c, s, rank, entry.hash, path);
          if failed.Some? {
            return failed;
          }
          ConcatAssociative(start, [Visit(path, entry)], inner.value);
          if rest.Ok? {
            ConcatAssociative(start, [Visit(path, entry)] + inner.value, rest.value);
          }
        } else if rest.Ok? {
          assert [Visit(path, entry)] + [] == [Visit(path, entry)];
          ConcatAssociative(start, [Visit(path, entry)], rest.value);
        }
      }
      assert es[|es|..] == [];
      EntriesNone(c, s, rank, h, prefix);
      assert visits + [] == visits;
      err := None;
    }
  }

  /** The whole result is what has been visited since `before` and what is still to come. */
  ghost predicate Joined(
    whole: Result<seq<Visit>, Error>, before: seq<Visit>, rest: Result<seq<Visit>, Error>, now: seq<Visit>)
  {
    match rest
    case Ok(more) => whole.Ok? && before + whole.value == now + more
    case Err(e) => whole == Err(e)
  }

  lemma EntriesFirst(c: Codec, s: Snapshot, rank: Hash -> nat, h: Hash, es: seq<Entry>, prefix: string)
    requires Acyclic(c, s, rank) && es != []
    requires forall e :: e in es && e.kind == DIRECTORY ==> rank(e.hash) < rank(h)
    ensures var path := ChildPath(prefix, es[0].name);
            var inner := if es[0].kind == DIRECTORY then WalkTree(c, s, rank, es[0].hash, path) else Ok([]);
            var rest := WalkEntries(c, s, rank, h, es[1..], prefix);
            WalkEntries(c, s, rank, h, es, prefix)
            == if inner.Err? then inner else if rest.Err? then rest
               else Ok([Visit(path, es[0])] + inner.value + rest.value)
  {
  }

  lemma EntriesNone(c: Codec, s: Snapshot, rank: Hash -> nat, h: Hash, prefix: string)
    requires Acyclic(c, s, rank)
    ensures WalkEntries(c, s, rank, h, [], prefix) == Ok([])
  {
  }

  // ---- Looking up a path ----

  /** The first entry of that name. */
  function Find(es: seq<Entry>, name: string): Option<Entry> {
    if es == [] then None else if es[0].name == name then Some(es[0]) else Find(es[1..], name)
  }

  function Lookup(c: Codec, s: Snapshot, h: Hash, parts: seq<string>): Result<Entry, Error>
    requires parts != []
    decreases |parts|
  {
    var es :- GetTree(c, s, h);
    LookupIn(c, s, es, parts)
  }

  function LookupIn(c: Codec, s: Snapshot, es: seq<Entry>, parts: seq<string>): Result<Entry, Error>
    requires parts != []
    decreases |parts|, 0
  {
    var found := Find(es, parts[0]);
    if found.None? then Err(PathNotFound)
    else if |parts| == 1 then Ok(found.value)
    else if found.value.kind != DIRECTORY then Err(NotADirectory)
    else
      var sub :- GetTree(c, s, found.value.hash);
      LookupIn(c, s, sub, parts[1..])
  }

  /** The reader of a file that was found: the snapshot must know the content, and it must open. */
  function OpenEntry(s: Snapshot, e: Entry, opens: Hash -> bool): Result<Entry, Error> {
    if e.kind != FILE then Ok(e)
    else if e.hash !in s.files then Err(FileMissing)
    else if !opens(e.hash) then Err(OpenFailed)
    else Ok(e)
  }

  /** The entry at a path, with its content when it is a file. */
  function FileAt(c: Codec, s: Snapshot, path: string, opens: Hash -> bool): Result<Entry, Error> {
    if Components(path) == [] then Err(EmptyPath)
    else
      match Lookup(c, s, s.root, Components(path))
      case Ok(e) => OpenEntry(s, e, opens)
      case Err(e) => Err(e)
  }

  method GetFileAtPath(c: Codec, s: Snapshot, path: string, opens: Hash -> bool) returns (r: Result<Entry, Error>)
    ensures r == FileAt(c, s, path, opens)
  {
    var parts := SplitPath(path);
    if parts == [] {
      return Err(EmptyPath);
    }
    hide Components;
    var currentHash := s.root;
    ghost var target := Lookup(c, s, s.root, parts);
    assert parts[0..] == parts;
    var i := 0;
    while true
      invariant 0 <= i < |parts|
      invariant Lookup(c, s, currentHash, parts[i..]) == target
      decreases |parts| - i
    {
      var tree := GetTree(c, s, currentHash);
      if tree.Err? {
        return Err(tree.error);
      }
      var found := FindEntry(tree.value, parts[i]);
      if found.None? {
        return Err(PathNotFound);
      }
      if i == |parts| - 1 {
        return OpenEntry(s, found.value, opens);
      }
      if found.value.kind != DIRECTORY {
        return Err(NotADirectory);
      }
      currentHash := found.value.hash;
      assert parts[i..][1..] == parts[i + 1..];
      i := i + 1;
    }
  }

  method FindEntry(es: seq<Entry>, name: string) returns (found: Option<Entry>)
    ensures found == Find(es, name)
  {
    assert es[0..] == es;
    for i := 0 to |es|
      invariant Find(es[i..], name) == Find(es, name)
    {
      assert es[i..][1..] == es[i + 1..];
      if es[i].name == name {
        return Some(es[i]);
      }
    }
    found := None;
  }

  // ---- Well-formed snapshots: walk and lookup agree ----

  ghost predicate GoodEntries(s: Snapshot, es: seq<Entry>) {
    && (forall e :: e in es ==> GoodName(e.name) && (e.kind == DIRECTORY ==> e.hash in s.trees))
    && (forall i, j :: 0 <= i < j < |es| ==> es[i].name != es[j].name)
  }

  /** Closed, with good and unique names in every tree. */
  ghost predicate WellFormed(c: Codec, s: Snapshot) {
    && s.root in s.trees
    && forall h :: h in s.trees ==> c.decode(s.trees[h]).Some? && GoodEntries(s, c.decode(s.trees[h]).value)
  }

  lemma ChildPathAdds(pre: seq<string>, name: string)
    requires Clear(pre) && GoodName(name)
    ensures Clear(pre + [name]) && ChildPath(JoinParts(pre), name) == JoinParts(pre + [name])
  {
    if pre == [] {
      assert pre + [name] == [name];
    } else {
      JoinNotDot(pre);
      JoinCleanAdds(pre, name);
    }
  }

  lemma {:induction false} WalkSucceeds(c: Codec, s: Snapshot, rank: Hash -> nat, h: Hash, prefix: string)
    requires Acyclic(c, s, rank) && WellFormed(c, s) && h in s.trees
    ensures WalkTree(c, s, rank, h, prefix).Ok?
    decreases rank(h), 1, 0
  {
    EntriesSucceed(c, s, rank, h, GetTree(c, s, h).value, prefix);
  }

  lemma {:induction false} EntriesSucceed(
    c: Codec, s: Snapshot, rank: Hash -> nat, h: Hash, es: seq<Entry>, prefix: string)
    requires Acyclic(c, s, rank) && WellFormed(c, s) && GoodEntries(s, es)
    requires forall e :: e in es && e.kind == DIRECTORY ==> rank(e.hash) < rank(h)
    ensures WalkEntries(c, s, rank, h, es, prefix).Ok?
    decreases rank(h), 0, |es|
  {
    if es != [] {
      assert es[0] in es;
      if es[0].kind == DIRECTORY {
        WalkSucceeds(c, s, rank, es[0].hash, ChildPath(prefix, es[0].name));
      }
      EntriesSucceed(c, s, rank, h, es[1..], prefix);
    }
  }

  /** The components below a prefix that lead to what was visited. */
  ghost predicate Leads(c: Codec, s: Snapshot, es: seq<Entry>, pre: seq<string>, v: Visit, ds: seq<string>) {
    ds != [] && Clear(pre + ds) && v.path == JoinParts(pre + ds) && LookupIn(c, s, es, ds) == Ok(v.entry)
  }

  lemma FindFirst(s: Snapshot, es: seq<Entry>, i: nat)
    requires GoodEntries(s, es) && i < |es|
    ensures Find(es, es[i].name) == Some(es[i])
  {
    if i > 0 {
      assert es[0].name != es[i].name;
      FindFirst(s, es[1..], i - 1);
    }
  }

  /** The entry a path starts with. */
  lemma LookupHead(c: Codec, s: Snapshot, es: seq<Entry>, e: Entry, ds: seq<string>)
    requires ds != [] && Find(es, ds[0]) == Some(e)
    ensures |ds| == 1 ==> LookupIn(c, s, es, ds) == Ok(e)
    ensures |ds| > 1 && e.kind == DIRECTORY && GetTree(c, s, e.hash).Ok?
            ==> LookupIn(c, s, es, ds) == LookupIn(c, s, GetTree(c, s, e.hash).value, ds[1..])
  {
  }

  /** What is known about the tree of a directory entry. */
  lemma SubTree(c: Codec, s: Snapshot, rank: Hash -> nat, es: seq<Entry>, e: Entry, prefix: string)
    requires Acyclic(c, s, rank) && WellFormed(c, s) && GoodEntries(s, es) && e in es && e.kind == DIRECTORY
    ensures GetTree(c, s, e.hash).Ok? && GoodEntries(s, GetTree(c, s, e.hash).value)
    ensures forall d :: d in GetTree(c, s, e.hash).value && d.kind == DIRECTORY ==> rank(d.hash) < rank(e.hash)
    ensures WalkTree(c, s, rank, e.hash, prefix) == WalkEntries(c, s, rank, e.hash, GetTree(c, s, e.hash).value, prefix)
  {
  }

  lemma FirstAndRest(s: Snapshot, es: seq<Entry>)
    requires GoodEntries(s, es) && es != []
    ensures GoodName(es[0].name) && Find(es, es[0].name) == Some(es[0]) && GoodEntries(s, es[1..])
    ensures forall e :: e in es ==> e == es[0] || e in es[1..]
    ensures forall e :: e in es[1..] ==> e in es && e.name != es[0].name
    ensures forall name :: name != es[0].name ==> Find(es, name) == Find(es[1..], name)
  {
  }

  /** Looking up a path that starts elsewhere does not see the first entry. */
  lemma LookupRest(c: Codec, s: Snapshot, es: seq<Entry>, ds: seq<string>)
    requires es != [] && ds != [] && Find(es, ds[0]) == Find(es[1..], ds[0])
    ensures LookupIn(c, s, es, ds) == LookupIn(c, s, es[1..], ds)
  {
  }

  /** Everything visited is found by looking up the components of its path. */
  lemma {:induction false} VisitedIsFound(
    c: Codec, s: Snapshot, rank: Hash -> nat, h: Hash, es: seq<Entry>, pre: seq<string>, v: Visit) returns (ds: seq<string>)
    requires Acyclic(c, s, rank) && WellFormed(c, s) && GoodEntries(s, es) && Clear(pre)
    requires forall e :: e in es && e.kind == DIRECTORY ==> rank(e.hash) < rank(h)
    requires WalkEntries(c, s, rank, h, es, JoinParts(pre)).Ok?
    requires v in WalkEntries(c, s, rank, h, es, JoinParts(pre)).value
    ensures Leads(c, s, es, pre, v, ds) && exists e :: e in es && e.name == ds[0]
    decreases rank(h), 0, |es|
  {
    hide Acyclic, WellFormed, GoodEntries, Clear, WalkTree, LookupIn, ChildPath, JoinParts, GetTree, GoodName, Find;
    EntriesFirst(c, s, rank, h, es, JoinParts(pre));
    if es == [] {
      EntriesNone(c, s, rank, h, JoinParts(pre));
    }
    hide WalkEntries;
    var e, rest := es[0], es[1..];
    assert e in es;
    FirstAndRest(s, es);
    ChildPathAdds(pre, e.name);
    var path := JoinParts(pre + [e.name]);
    if v == Visit(path, e) {
      ds := [e.name];
      LookupHead(c, s, es, e, ds);
    } else if e.kind == DIRECTORY && v in WalkTree(c, s, rank, e.hash, path).value {
      SubTree(c, s, rank, es, e, path);
      var sub := GetTree(c, s, e.hash).value;
      var below := VisitedIsFound(c, s, rank, e.hash, sub, pre + [e.name], v);
      ds := [e.name] + below;
      ConcatAssociative(pre, [e.name], below);
      assert ds[1..] == below;
      LookupHead(c, s, es, e, ds);
    } else {
      ds := VisitedIsFound(c, s, rank, h, rest, pre, v);
      LookupRest(c, s, es, ds);
    }
  }

  /** Everything found is visited under the joined components. */
  lemma {:induction false} FoundIsVisited(
    c: Codec, s: Snapshot, rank: Hash -> nat, h: Hash, es: seq<Entry>, pre: seq<string>, ds: seq<string>)
    requires Acyclic(c, s, rank) && WellFormed(c, s) && GoodEntries(s, es) && Clear(pre)
    requires forall e :: e in es && e.kind == DIRECTORY ==> rank(e.hash) < rank(h)
    requires ds != [] && LookupIn(c, s, es, ds).Ok?
    requires WalkEntries(c, s, rank, h, es, JoinParts(pre)).Ok?
    ensures Visit(JoinParts(pre + ds), LookupIn(c, s, es, ds).value) in WalkEntries(c, s, rank, h, es, JoinParts(pre)).value
    decreases rank(h), 0, |es|
  {
    LookupNeedsEntries(c, s, es, ds);
    hide Acyclic, WellFormed, GoodEntries, Clear, WalkTree, WalkEntries, ChildPath, JoinParts, GetTree, GoodName, Find, LookupIn;
    EntriesFirst(c, s, rank, h, es, JoinParts(pre));
    var e, rest := es[0], es[1..];
    assert e in es;
    FirstAndRest(s, es);
    if e.name == ds[0] {
      ChildPathAdds(pre, e.name);
      var path := JoinParts(pre + [e.name]);
      LookupHead(c, s, es, e, ds);
      if |ds| == 1 {
        assert ds == [e.name];
      } else {
        SubTree(c, s, rank, es, e, path);
        var sub := GetTree(c, s, e.hash).value;
        assert [e.name] + ds[1..] == ds;
        ConcatAssociative(pre, [e.name], ds[1..]);
        FoundIsVisited(c, s, rank, e.hash, sub, pre + [e.name], ds[1..]);
      }
    } else {
      LookupRest(c, s, es, ds);
      FoundIsVisited(c, s, rank, h, rest, pre, ds);
    }
  }

  /** A successful lookup starts at an entry, and goes on only below a directory. */
  lemma LookupNeedsEntries(c: Codec, s: Snapshot, es: seq<Entry>, ds: seq<string>)
    requires ds != [] && LookupIn(c, s, es, ds).Ok?
    ensures es != []
    ensures |ds| > 1 && es[0].name == ds[0] ==> es[0].kind == DIRECTORY
  {
  }

  lemma JoinIsInjective(a: seq<string>, b: seq<string>)
    requires Clear(a) && Clear(b) && JoinParts(a) == JoinParts(b)
    ensures a == b
  {
    SplitInvertsJoinIff(a);
    SplitInvertsJoinIff(b);
  }

  /** On a well-formed snapshot, looking up any path that names something finds an entry exactly when the
      walk visits that entry under the cleaned path. */
  lemma LookupIffVisited(c: Codec, s: Snapshot, rank: Hash -> nat, path: string, e: Entry)
    requires Acyclic(c, s, rank) && WellFormed(c, s) && Components(path) != []
    ensures Walk(c, s, rank).Ok?
    ensures Lookup(c, s, s.root, Components(path)) == Ok(e)
            <==> Visit(JoinParts(Components(path)), e) in Walk(c, s, rank).value
  {
    var es, ds := GetTree(c, s, s.root).value, Components(path);
    WalkSucceeds(c, s, rank, s.root, "");
    assert JoinParts([]) == "" && [] + ds == ds;
    hide Components;
    if LookupIn(c, s, es, ds) == Ok(e) {
      FoundIsVisited(c, s, rank, s.root, es, [], ds);
    }
    if Visit(JoinParts(ds), e) in Walk(c, s, rank).value {
      var found := VisitedIsFound(c, s, rank, s.root, es, [], Visit(JoinParts(ds), e));
      assert [] + found == found;
      ComponentsAreClear(path);
      JoinIsInjective(found, ds);
    }
  }

  ghost predicate DistinctPaths(vs: seq<Visit>) {
    forall i, j :: 0 <= i < j < |vs| ==> vs[i].path != vs[j].path
  }

  ghost predicate NoSharedPath(a: seq<Visit>, b: seq<Visit>) {
    forall v, w :: v in a && w in b ==> v.path != w.path
  }

  lemma DistinctConcat(a: seq<Visit>, b: seq<Visit>)
    requires DistinctPaths(a) && DistinctPaths(b) && NoSharedPath(a, b)
    ensures DistinctPaths(a + b)
  {
    forall i, j | 0 <= i < j < |a + b| ensures (a + b)[i].path != (a + b)[j].path {
      if i < |a| <= j {
        assert (a + b)[i] in a && (a + b)[j] in b;
      }
    }
  }

  /** The paths visited below one entry differ from those visited for the other entries. */
  lemma BlocksDiffer(c: Codec, s: Snapshot, rank: Hash -> nat, h: Hash, es: seq<Entry>, pre: seq<string>, v: Visit, w: Visit)
    requires Acyclic(c, s, rank) && WellFormed(c, s) && GoodEntries(s, es) && Clear(pre) && es != []
    requires forall e :: e in es && e.kind == DIRECTORY ==> rank(e.hash) < rank(h)
    requires WalkEntries(c, s, rank, h, [es[0]], JoinParts(pre)).Ok? && v in WalkEntries(c, s, rank, h, [es[0]], JoinParts(pre)).value
    requires WalkEntries(c, s, rank, h, es[1..], JoinParts(pre)).Ok? && w in WalkEntries(c, s, rank, h, es[1..], JoinParts(pre)).value
    ensures v.path != w.path
  {
    assert es[0] in es;
    var a := VisitedIsFound(c, s, rank, h, [es[0]], pre, v);
    var b := VisitedIsFound(c, s, rank, h, es[1..], pre, w);
    FirstAndRest(s, es);
    assert (pre + a)[|pre|] == a[0] && (pre + b)[|pre|] == b[0] && a[0] != b[0];
    if v.path == w.path {
      JoinIsInjective(pre + a, pre + b);
    }
  }

  lemma {:induction false} EntriesDistinct(
    c: Codec, s: Snapshot, rank: Hash -> nat, h: Hash, es: seq<Entry>, pre: seq<string>)
    requires Acyclic(c, s, rank) && WellFormed(c, s) && GoodEntries(s, es) && Clear(pre)
    requires forall e :: e in es && e.kind == DIRECTORY ==> rank(e.hash) < rank(h)
    requires WalkEntries(c, s, rank, h, es, JoinParts(pre)).Ok?
    ensures DistinctPaths(WalkEntries(c, s, rank, h, es, JoinParts(pre)).value)
    decreases rank(h), 0, |es|
  {
    if es == [] {
      EntriesNone(c, s, rank, h, JoinParts(pre));
    } else {
      var e, rest := es[0], es[1..];
      assert e in es;
      EntriesFirst(c, s, rank, h, es, JoinParts(pre));
      ChildPathAdds(pre, e.name);
      var path := JoinParts(pre + [e.name]);
      var inner := if e.kind == DIRECTORY then WalkTree(c, s, rank, e.hash, path) else Ok([]);
      var block := [Visit(path, e)] + inner.value;
      var later := WalkEntries(c, s, rank, h, rest, JoinParts(pre)).value;
      EntriesDistinct(c, s, rank, h, rest, pre);
      if e.kind == DIRECTORY {
        EntriesDistinct(c, s, rank, e.hash, GetTree(c, s, e.hash).value, pre + [e.name]);
        BelowDiffers(c, s, rank, e, pre);
      }
      DistinctConcat([Visit(path, e)], inner.value);
      OneEntry(c, s, rank, h, e, JoinParts(pre));
      forall v, w | v in block && w in later ensures v.path != w.path {
        BlocksDiffer(c, s, rank, h, es, pre, v, w);
      }
      DistinctConcat(block, later);
    }
  }

  lemma OneEntry(c: Codec, s: Snapshot, rank: Hash -> nat, h: Hash, e: Entry, prefix: string)
    requires Acyclic(c, s, rank) && (e.kind == DIRECTORY ==> rank(e.hash) < rank(h))
    ensures var path := ChildPath(prefix, e.name);
            var inner := if e.kind == DIRECTORY then WalkTree(c, s, rank, e.hash, path) else Ok([]);
            WalkEntries(c, s, rank, h, [e], prefix) == if inner.Err? then inner else Ok([Visit(path, e)] + inner.value)
  {
    EntriesFirst(c, s, rank, h, [e], prefix);
    EntriesNone(c, s, rank, h, prefix);
    assert [e][1..] == [];
    var path := ChildPath(prefix, e.name);
    var inner := if e.kind == DIRECTORY then WalkTree(c, s, rank, e.hash, path) else Ok([]);
    if inner.Ok? {
      assert [Visit(path, e)] + inner.value + [] == [Visit(path, e)] + inner.value;
    }
  }

  /** A directory's own path differs from the paths below it. */
  lemma BelowDiffers(c: Codec, s: Snapshot, rank: Hash -> nat, e: Entry, pre: seq<string>)
    requires Acyclic(c, s, rank) && WellFormed(c, s) && e.kind == DIRECTORY && e.hash in s.trees
    requires Clear(pre + [e.name])
    requires WalkTree(c, s, rank, e.hash, JoinParts(pre + [e.name])).Ok?
    ensures NoSharedPath([Visit(JoinParts(pre + [e.name]), e)], WalkTree(c, s, rank, e.hash, JoinParts(pre + [e.name])).value)
  {
    var up := pre + [e.name];
    var es := GetTree(c, s, e.hash).value;
    forall w | w in WalkTree(c, s, rank, e.hash, JoinParts(up)).value ensures w.path != JoinParts(up) {
      var ds := VisitedIsFound(c, s, rank, e.hash, es, up, w);
      if w.path == JoinParts(up) {
        JoinIsInjective(up + ds, up);
      }
    }
  }

  /** On a well-formed snapshot the walk visits every path once. */
  lemma WalkVisitsOnce(c: Codec, s: Snapshot, rank: Hash -> nat)
    requires Acyclic(c, s, rank) && WellFormed(c, s)
    ensures Walk(c, s, rank).Ok? && DistinctPaths(Walk(c, s, rank).value)
  {
    WalkSucceeds(c, s, rank, s.root, "");
    assert JoinParts([]) == "";
    EntriesDistinct(c, s, rank, s.root, GetTree(c, s, s.root).value, []);
  }

  // ---- What a path gives ----

  /** On a well-formed snapshot a path gives an entry iff the walk visits it there and, for a file, its content
      is known and opens. */
  lemma FileAtIff(c: Codec, s: Snapshot, rank: Hash -> nat, path: string, opens: Hash -> bool, e: Entry)
    requires Acyclic(c, s, rank) && WellFormed(c, s)
    ensures Walk(c, s, rank).Ok?
    ensures FileAt(c, s, path, opens) == Ok(e) <==>
              && Components(path) != [] && Visit(JoinParts(Components(path)), e) in Walk(c, s, rank).value
              && (e.kind == FILE ==> e.hash in s.files && opens(e.hash))
  {
    hide Acyclic, WellFormed, Walk, Lookup, Components, JoinParts;
    if Components(path) == [] {
      WalkVisitsOnce(c, s, rank);
    } else {
      LookupIffVisited(c, s, rank, path, e);
    }
  }

  /** Otherwise it says why: the path is empty; it goes through something that is no directory; nothing is
      there; or a file is there whose content is unknown or does not open. */
  lemma FileAtFails(c: Codec, s: Snapshot, path: string, opens: Hash -> bool)
    requires WellFormed(c, s) && FileAt(c, s, path, opens).Err?
    ensures var ds, error := Components(path), FileAt(c, s, path, opens).error;
            if ds == [] then error == EmptyPath
            else match Lookup(c, s, s.root, ds)
                 case Ok(e) => e.kind == FILE && error == if e.hash in s.files then OpenFailed else FileMissing
                 case Err(_) =>
                   error == if exists k: nat :: PassesFile(c, s, ds, k) then NotADirectory else PathNotFound
  {
    var ds := Components(path);
    if ds != [] {
      LookupFails(c, s, GetTree(c, s, s.root).value, ds);
      hide LookupIn, Components, WellFormed;
      forall k: nat ensures PassesFile(c, s, ds, k) <==> FileOnTheWay(c, s, GetTree(c, s, s.root).value, ds, k) {}
    }
  }

  /** After `k` components, before the end, there is something that is no directory. */
  ghost predicate PassesFile(c: Codec, s: Snapshot, ds: seq<string>, k: nat) {
    0 < k < |ds| && Lookup(c, s, s.root, ds[..k]).Ok? && Lookup(c, s, s.root, ds[..k]).value.kind != DIRECTORY
  }

  ghost predicate FileOnTheWay(c: Codec, s: Snapshot, es: seq<Entry>, ds: seq<string>, k: nat) {
    0 < k < |ds| && LookupIn(c, s, es, ds[..k]).Ok? && LookupIn(c, s, es, ds[..k]).value.kind != DIRECTORY
  }

  lemma {:induction false} LookupFails(c: Codec, s: Snapshot, es: seq<Entry>, ds: seq<string>)
    requires WellFormed(c, s) && GoodEntries(s, es) && ds != []
    ensures LookupIn(c, s, es, ds).Err? ==>
              LookupIn(c, s, es, ds).error == if exists k: nat :: FileOnTheWay(c, s, es, ds, k) then NotADirectory else PathNotFound
    decreases |ds|
  {
    var found := Find(es, ds[0]);
    if found.None? {
      forall k: nat | 0 < k < |ds| ensures LookupIn(c, s, es, ds[..k]).Err? {
        assert ds[..k][0] == ds[0];
      }
    } else if |ds| > 1 && found.value.kind != DIRECTORY {
      assert ds[..1][0] == ds[0];
      assert FileOnTheWay(c, s, es, ds, 1);
    } else if |ds| > 1 {
      FoundDirectory(c, s, es, found.value, ds[0]);
      var sub := GetTree(c, s, found.value.hash).value;
      LookupFails(c, s, sub, ds[1..]);
      OnTheWayBelow(c, s, es, found.value, ds);
    }
  }

  lemma FoundDirectory(c: Codec, s: Snapshot, es: seq<Entry>, e: Entry, name: string)
    requires WellFormed(c, s) && GoodEntries(s, es) && Find(es, name) == Some(e) && e.kind == DIRECTORY
    ensures GetTree(c, s, e.hash).Ok? && GoodEntries(s, GetTree(c, s, e.hash).value)
  {
    FindIsIn(es, name);
  }

  lemma {:induction false} FindIsIn(es: seq<Entry>, name: string)
    requires Find(es, name).Some?
    ensures Find(es, name).value in es
  {
    if es[0].name != name {
      FindIsIn(es[1..], name);
    }
  }

  /** What is on the way below a directory is on the way from above, one component further. */
  lemma OnTheWayBelow(c: Codec, s: Snapshot, es: seq<Entry>, e: Entry, ds: seq<string>)
    requires |ds| > 1 && Find(es, ds[0]) == Some(e) && e.kind == DIRECTORY && GetTree(c, s, e.hash).Ok?
    ensures (exists k: nat :: FileOnTheWay(c, s, es, ds, k))
            <==> exists k: nat :: FileOnTheWay(c, s, GetTree(c, s, e.hash).value, ds[1..], k)
  {
    var sub := GetTree(c, s, e.hash).value;
    assert !FileOnTheWay(c, s, es, ds, 1) by {
      assert ds[..1][0] == ds[0];
      LookupHead(c, s, es, e, ds[..1]);
    }
    forall k: nat | 0 < k ensures FileOnTheWay(c, s, es, ds, k + 1) <==> FileOnTheWay(c, s, sub, ds[1..], k) {
      if k + 1 < |ds| {
        assert ds[..k + 1][0] == ds[0] && ds[..k + 1][1..] == ds[1..][..k];
        LookupHead(c, s, es, e, ds[..k + 1]);
      }
    }
    hide LookupIn, Find, GetTree;
    if exists k: nat :: FileOnTheWay(c, s, es, ds, k) {
      var k: nat :| FileOnTheWay(c, s, es, ds, k);
      assert FileOnTheWay(c, s, sub, ds[1..], k - 1);
    }
    if exists k: nat :: FileOnTheWay(c, s, sub, ds[1..], k) {
      var k: nat :| FileOnTheWay(c, s, sub, ds[1..], k);
      assert FileOnTheWay(c, s, es, ds, k + 1);
    }
  }

  // ---- When a walk fails ----

  /** The first tree has the second for a directory. */
  ghost predicate HasDirectory(c: Codec, s: Snapshot, h: Hash, below: Hash) {
    && h in s.trees && c.decode(s.trees[h]).Some?
    && exists e :: e in c.decode(s.trees[h]).value && e.kind == DIRECTORY && e.hash == below
  }

  /** A way from tree `h` down through directories. */
  ghost predicate WayDown(c: Codec, s: Snapshot, h: Hash, way: seq<Hash>) {
    && way != [] && way[0] == h
    && forall i {:trigger way[i]} :: 0 < i < |way| ==> HasDirectory(c, s, way[i - 1], way[i])
  }

  ghost predicate Damaged(c: Codec, s: Snapshot, h: Hash, error: Error) {
    || (error == TreeMissing && h !in s.trees)
    || (error == TreeCorrupt && h in s.trees && c.decode(s.trees[h]).None?)
  }

  ghost predicate LeadsToDamage(c: Codec, s: Snapshot, h: Hash, way: seq<Hash>, error: Error) {
    WayDown(c, s, h, way) && Damaged(c, s, way[|way| - 1], error)
  }

  /** The walk fails iff a way down from the root ends at a tree that is missing or cannot be read, and its
      error is the one of such a tree. */
  lemma WalkFailsIff(c: Codec, s: Snapshot, rank: Hash -> nat)
    requires Acyclic(c, s, rank)
    ensures Walk(c, s, rank).Err? <==>
              exists way, error :: LeadsToDamage(c, s, s.root, way, error)
    ensures Walk(c, s, rank).Err? ==>
              exists way :: LeadsToDamage(c, s, s.root, way, Walk(c, s, rank).error)
  {
    hide WalkTree, Damaged, Acyclic;
    if Walk(c, s, rank).Err? {
      var way := FailedWay(c, s, rank, s.root, "");
      assert LeadsToDamage(c, s, s.root, way, Walk(c, s, rank).error);
    } else {
      forall way, error ensures !LeadsToDamage(c, s, s.root, way, error) {
        if LeadsToDamage(c, s, s.root, way, error) {
          WholeWay(c, s, rank, s.root, "", way, error);
        }
      }
    }
  }

  lemma {:induction false} FailedWay(c: Codec, s: Snapshot, rank: Hash -> nat, h: Hash, prefix: string)
    returns (way: seq<Hash>)
    requires Acyclic(c, s, rank) && WalkTree(c, s, rank, h, prefix).Err?
    ensures WayDown(c, s, h, way) && Damaged(c, s, way[|way| - 1], WalkTree(c, s, rank, h, prefix).error)
    decreases rank(h), 1, 0
  {
    if GetTree(c, s, h).Err? {
      way := [h];
    } else {
      way := FailedEntry(c, s, rank, h, GetTree(c, s, h).value, prefix);
    }
  }

  lemma {:induction false} FailedEntry(
    c: Codec, s: Snapshot, rank: Hash -> nat, h: Hash, es: seq<Entry>, prefix: string) returns (way: seq<Hash>)
    requires Acyclic(c, s, rank) && GetTree(c, s, h).Ok? && forall e :: e in es ==> e in GetTree(c, s, h).value
    requires WalkEntries(c, s, rank, h, es, prefix).Err?
    ensures WayDown(c, s, h, way) && Damaged(c, s, way[|way| - 1], WalkEntries(c, s, rank, h, es, prefix).error)
    decreases rank(h), 0, |es|
  {
    var e := es[0];
    assert e in es;
    EntriesFirst(c, s, rank, h, es, prefix);
    if e.kind == DIRECTORY && WalkTree(c, s, rank, e.hash, ChildPath(prefix, e.name)).Err? {
      var below := FailedWay(c, s, rank, e.hash, ChildPath(prefix, e.name));
      way := WayFrom(c, s, h, e, below);
    } else {
      way := FailedEntry(c, s, rank, h, es[1..], prefix);
    }
  }

  lemma WayFrom(c: Codec, s: Snapshot, h: Hash, e: Entry, below: seq<Hash>) returns (way: seq<Hash>)
    requires GetTree(c, s, h).Ok? && e in GetTree(c, s, h).value && e.kind == DIRECTORY
    requires WayDown(c, s, e.hash, below)
    ensures WayDown(c, s, h, way) && way[|way| - 1] == below[|below| - 1]
  {
    way := [h] + below;
    assert HasDirectory(c, s, h, e.hash);
    forall i | 0 < i < |way| ensures HasDirectory(c, s, way[i - 1], way[i]) {
      assert way[i] == below[i - 1] && (i > 1 ==> way[i - 1] == below[i - 2]);
    }
  }

  lemma {:induction false} WholeWay(
    c: Codec, s: Snapshot, rank: Hash -> nat, h: Hash, prefix: string, way: seq<Hash>, error: Error)
    requires Acyclic(c, s, rank) && WalkTree(c, s, rank, h, prefix).Ok? && WayDown(c, s, h, way)
    ensures !Damaged(c, s, way[|way| - 1], error)
    decreases |way|
  {
    if |way| > 1 {
      assert HasDirectory(c, s, way[0], way[1]);
      var es := GetTree(c, s, h).value;
      var e :| e in es && e.kind == DIRECTORY && e.hash == way[1];
      var path := WholeEntries(c, s, rank, h, es, prefix, e);
      forall i | 0 < i < |way| - 1 ensures HasDirectory(c, s, way[1..][i - 1], way[1..][i]) {
        assert way[1..][i] == way[i + 1];
      }
      WholeWay(c, s, rank, way[1], path, way[1..], error);
    }
  }

  lemma {:induction false} WholeEntries(
    c: Codec, s: Snapshot, rank: Hash -> nat, h: Hash, es: seq<Entry>, prefix: string, e: Entry) returns (path: string)
    requires Acyclic(c, s, rank) && forall e :: e in es && e.kind == DIRECTORY ==> rank(e.hash) < rank(h)
    requires WalkEntries(c, s, rank, h, es, prefix).Ok? && e in es && e.kind == DIRECTORY
    ensures WalkTree(c, s, rank, e.hash, path).Ok?
    decreases |es|
  {
    EntriesFirst(c, s, rank, h, es, prefix);
    if e == es[0] {
      path := ChildPath(prefix, e.name);
    } else {
      path := WholeEntries(c, s, rank, h, es[1..], prefix, e);
    }
  }
}

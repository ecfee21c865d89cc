/** The order in which directories are listed decides nothing about a capture, except at the file limit. */
module CaptureOrder {
  import opened Basics
  import opened Paths
  import opened Snapshots
  import opened NameOrder
  import opened Captures
  import opened CaptureMeaning

  /** The same files, options and codec; the listings may come in another order. */
  ghost predicate SameButOrder(j: Job, k: Job) {
    && k.codec == j.codec && k.opts == j.opts
    && k.fs == j.fs.(readDir := k.fs.readDir)
    && forall p :: SameListing(j.fs.readDir(p), k.fs.readDir(p))
  }

  ghost predicate SameListing(a: Option<seq<DirEnt>>, b: Option<seq<DirEnt>>) {
    a.Some? == b.Some? && (a.Some? ==> forall de :: de in a.value <==> de in b.value)
  }

  /** The entries that are kept are those of the listed names, whatever their order; a cyclic link among
      them stops the capture. */
  lemma {:induction false} KeptIs(j: Job, vis: set<string>, abs: string, rel: string, des: seq<DirEnt>)
    requires Sane(j) && vis <= j.fs.realPaths
    ensures var kept := KeptEntries(j, vis, abs, rel, des);
            && (kept.Ok? <==> forall de :: de in des ==> Child(j, vis, abs, rel, de) != Err(CyclicLink))
            && (kept.Ok? ==> forall e :: e in kept.value <==> exists de :: de in des && Child(j, vis, abs, rel, de) == Ok(e))
  {
    if des != [] {
      KeptNext(j, vis, abs, rel, des);
      KeptIs(j, vis, abs, rel, des[1..]);
      assert forall de :: de in des <==> de == des[0] || de in des[1..];
      hide KeptEntries, Child, Sane;
    }
  }

  /** One level of a cyclic failure. */
  lemma CyclicStep(j: Job, vis: set<string>, abs: string, rel: string)
    requires Sane(j) && vis <= j.fs.realPaths
    ensures !Revisits(j, vis, abs) && j.fs.readDir(abs).Some? ==> Stack(j, vis, abs) <= j.fs.realPaths
    ensures var listing := j.fs.readDir(abs);
            Entries(j, vis, abs, rel) == Err(CyclicLink) <==>
              || Revisits(j, vis, abs)
              || (listing.Some? && exists de :: de in listing.value && Child(j, Stack(j, vis, abs), abs, rel, de) == Err(CyclicLink))
  {
    EntriesOf(j, vis, abs, rel);
    if !Revisits(j, vis, abs) && j.fs.readDir(abs).Some? {
      KeptIs(j, Stack(j, vis, abs), abs, rel, j.fs.readDir(abs).value);
    }
    hide Entries, KeptEntries, Child, Listing, Below, SortByName, Sane;
  }

  ghost predicate Listed(name: string, des: seq<DirEnt>) {
    exists de :: de in des && de.name == name
  }

  /** Each entry has a good name of its own, and it is a listed one. */
  ghost predicate NamedIn(es: seq<Entry>, des: seq<DirEnt>) {
    DistinctNames(es) && forall e :: e in es ==> GoodName(e.name) && Listed(e.name, des)
  }

  lemma ListedNext(des: seq<DirEnt>, name: string)
    requires des != [] && GoodListing(des) && Listed(name, des[1..])
    ensures Listed(name, des) && name != des[0].name
  {
    hide GoodName;
    var de :| de in des[1..] && de.name == name;
    assert de in des;
  }

  lemma NamedRest(rest: seq<Entry>, des: seq<DirEnt>)
    requires des != [] && GoodListing(des) && NamedIn(rest, des[1..])
    ensures NamedIn(rest, des) && forall e :: e in rest ==> e.name != des[0].name
  {
    forall e | e in rest ensures Listed(e.name, des) && e.name != des[0].name {
      ListedNext(des, e.name);
    }
  }

  lemma NamedNext(t: Entry, rest: seq<Entry>, des: seq<DirEnt>)
    requires des != [] && GoodListing(des) && NamedIn(rest, des[1..]) && t.name == des[0].name
    ensures NamedIn([t] + rest, des)
  {
    NamedRest(rest, des);
    assert des[0] in des && GoodName(des[0].name) && Listed(des[0].name, des);
    hide GoodName, Listed, GoodListing;
    var all := [t] + rest;
    forall i, k | 0 <= i < k < |all| ensures all[i].name != all[k].name {
      assert all[k] == rest[k - 1] && all[k] in rest;
      assert i > 0 ==> all[i] == rest[i - 1];
    }
  }

  lemma {:induction false} KeptNames(j: Job, vis: set<string>, abs: string, rel: string, des: seq<DirEnt>)
    requires Sane(j) && vis <= j.fs.realPaths && GoodListing(des) && KeptEntries(j, vis, abs, rel, des).Ok?
    ensures NamedIn(KeptEntries(j, vis, abs, rel, des).value, des)
  {
    if des != [] {
      assert GoodListing(des[1..]);
      KeptNext(j, vis, abs, rel, des);
      KeptNames(j, vis, abs, rel, des[1..]);
      var t := Child(j, vis, abs, rel, des[0]);
      assert t.Ok? ==> t.value.name == des[0].name;
      hide *;
      var rest := KeptEntries(j, vis, abs, rel, des[1..]).value;
      if t.Ok? {
        NamedNext(t.value, rest, des);
      } else {
        NamedRest(rest, des);
      }
    }
  }

  /** Nothing about a directory depends on the order of listings: not its entries, not what is below it, and
      not whether a file is left out. */
  lemma {:induction false} OrderIrrelevant(j: Job, k: Job, vis: set<string>, abs: string, rel: string)
    requires Sane(j) && Sane(k) && SameButOrder(j, k) && vis <= j.fs.realPaths
    ensures Entries(j, vis, abs, rel) == Entries(k, vis, abs, rel)
    ensures Listing(j, vis, abs, rel) == Listing(k, vis, abs, rel)
    ensures KeepsDir(j, vis, abs, rel) == KeepsDir(k, vis, abs, rel)
    decreases |j.fs.realPaths - vis|, Room(j, abs), 3, 0
  {
    hide *;
    var a, b := j.fs.readDir(abs), k.fs.readDir(abs);
    Agreeing(j, k);
    SameHere(j, k, vis, abs);
    EntriesOf(j, vis, abs, rel);
    EntriesOf(k, vis, abs, rel);
    KeepsDirOf(j, vis, abs, rel);
    KeepsDirOf(k, vis, abs, rel);
    if Revisits(j, vis, abs) || a.None? {
      NothingListed(j, vis, abs, rel);
      NothingListed(k, vis, abs, rel);
    } else {
      var now := Stack(j, vis, abs);
      Entering(j, vis, abs);
      forall de ensures ChildrenAgree(j, k, now, abs, rel, de) {
        ChildSame(j, k, now, abs, rel, de);
      }
      assert a == Some(a.value) && b == Some(b.value);
      KeptSame(j, k, now, abs, rel, a.value, b.value);
      if Entries(j, vis, abs, rel).Ok? {
        BelowSame(j, k, now, abs, rel, Entries(j, vis, abs, rel).value);
      } else {
        NothingListed(j, vis, abs, rel);
        NothingListed(k, vis, abs, rel);
      }
    }
  }

  lemma NothingListed(j: Job, vis: set<string>, abs: string, rel: string)
    requires Sane(j) && vis <= j.fs.realPaths && Entries(j, vis, abs, rel).Err?
    ensures Listing(j, vis, abs, rel) == []
  {
    hide Entries, Sane;
  }

  lemma SameHere(j: Job, k: Job, vis: set<string>, abs: string)
    requires Sane(j) && Sane(k) && SameButOrder(j, k)
    ensures Revisits(j, vis, abs) == Revisits(k, vis, abs) && Stack(j, vis, abs) == Stack(k, vis, abs)
    ensures SameListing(j.fs.readDir(abs), k.fs.readDir(abs)) && j.fs.readDir(abs).Some? == k.fs.readDir(abs).Some?
    ensures j.fs.readDir(abs).Some? ==> GoodListing(j.fs.readDir(abs).value) && GoodListing(k.fs.readDir(abs).value)
  {
    hide GoodListing;
  }

  ghost predicate ChildrenAgree(j: Job, k: Job, vis: set<string>, abs: string, rel: string, de: DirEnt)
    requires Sane(j) && Sane(k) && SameButOrder(j, k) && vis <= j.fs.realPaths
  {
    && Child(j, vis, abs, rel, de) == Child(k, vis, abs, rel, de)
    && KeepsChild(j, vis, abs, rel, de) == KeepsChild(k, vis, abs, rel, de)
  }

  lemma KeepsDirOf(j: Job, vis: set<string>, abs: string, rel: string)
    requires Sane(j) && vis <= j.fs.realPaths
    ensures var listing := j.fs.readDir(abs);
            if Revisits(j, vis, abs) || listing.None? then KeepsDir(j, vis, abs, rel)
            else Stack(j, vis, abs) <= j.fs.realPaths
                 && KeepsDir(j, vis, abs, rel) == KeepsAll(j, Stack(j, vis, abs), abs, rel, listing.value)
  {
    if !Revisits(j, vis, abs) && j.fs.readDir(abs).Some? {
      KeepsOf(j, vis, abs, rel);
    }
    hide KeepsAll, Sane, Stack;
  }

  lemma {:induction false} KeepsAllIs(j: Job, vis: set<string>, abs: string, rel: string, des: seq<DirEnt>)
    requires Sane(j) && vis <= j.fs.realPaths
    ensures KeepsAll(j, vis, abs, rel, des) <==> forall de :: de in des ==> KeepsChild(j, vis, abs, rel, de)
  {
    if des != [] {
      KeepsNext(j, vis, abs, rel, des);
      KeepsAllIs(j, vis, abs, rel, des[1..]);
      hide *;
      assert des[0] in des && forall de :: de in des <==> de == des[0] || de in des[1..];
    }
  }

  lemma KeptSame(j: Job, k: Job, vis: set<string>, abs: string, rel: string, a: seq<DirEnt>, b: seq<DirEnt>)
    requires Sane(j) && Sane(k) && vis <= j.fs.realPaths && k.fs.realPaths == j.fs.realPaths
    requires GoodListing(a) && GoodListing(b) && SameListing(Some(a), Some(b))
    requires SameButOrder(j, k) && forall de :: ChildrenAgree(j, k, vis, abs, rel, de)
    ensures var s, t := KeptEntries(j, vis, abs, rel, a), KeptEntries(k, vis, abs, rel, b);
            if s.Ok? then t.Ok? && SortByName(s.value) == SortByName(t.value) else t == s
    ensures KeepsAll(j, vis, abs, rel, a) == KeepsAll(k, vis, abs, rel, b)
  {
    KeepsAllIs(j, vis, abs, rel, a);
    KeepsAllIs(k, vis, abs, rel, b);
    assert forall de :: ChildrenAgree(j, k, vis, abs, rel, de) ==> KeepsChild(j, vis, abs, rel, de) == KeepsChild(k, vis, abs, rel, de);
    KeptIs(j, vis, abs, rel, a);
    KeptIs(k, vis, abs, rel, b);
    assert forall de :: ChildrenAgree(j, k, vis, abs, rel, de) ==> Child(j, vis, abs, rel, de) == Child(k, vis, abs, rel, de);
    hide SameButOrder, ChildrenAgree, KeepsAll, KeepsChild, KeptEntries, Child, Sane, GoodListing, GoodName, SortByName;
    var s, t := KeptEntries(j, vis, abs, rel, a), KeptEntries(k, vis, abs, rel, b);
    if s.Ok? && t.Ok? {
      KeptNames(j, vis, abs, rel, a);
      KeptNames(k, vis, abs, rel, b);
      SortIgnoresOrder(s.value, t.value);
    }
  }

  lemma {:induction false} ChildSame(j: Job, k: Job, vis: set<string>, abs: string, rel: string, de: DirEnt)
    requires Sane(j) && Sane(k) && SameButOrder(j, k) && vis <= j.fs.realPaths
    ensures ChildrenAgree(j, k, vis, abs, rel, de)
    decreases |j.fs.realPaths - vis|, Span(j, abs), 1, 0
  {
    SameLook(j, k, abs, rel, de);
    if LeadsDown(j, abs, rel, de) {
      ChildRoom(j, abs, de.name);
      OrderIrrelevant(j, k, vis, JoinClean(abs, de.name), ChildPath(rel, de.name));
    }
    hide JoinClean, ChildPath, Sane, Entries, KeepsDir, Room, Span, GoodName, Look, LeavesOut, SameListing;
  }

  lemma SameLook(j: Job, k: Job, abs: string, rel: string, de: DirEnt)
    requires SameButOrder(j, k)
    ensures Look(j, abs, rel, de) == Look(k, abs, rel, de)
    ensures LeavesOut(j, abs, rel, de) == LeavesOut(k, abs, rel, de)
    ensures LeadsDown(j, abs, rel, de) == LeadsDown(k, abs, rel, de)
  {
    hide JoinClean, ChildPath, SameListing, GoodName;
  }

  lemma {:induction false} BelowSame(j: Job, k: Job, vis: set<string>, abs: string, rel: string, es: seq<Entry>)
    requires Sane(j) && Sane(k) && SameButOrder(j, k) && vis <= j.fs.realPaths
    ensures Below(j, vis, abs, rel, es) == Below(k, vis, abs, rel, es)
    decreases |j.fs.realPaths - vis|, Span(j, abs), 2, |es|
  {
    hide *;
    Agreeing(j, k);
    if es == [] {
      BelowNone(j, vis, abs, rel);
      BelowNone(k, vis, abs, rel);
    } else {
      if IsDirectory(es[0]) {
        IsDirectoryName(es[0]);
        ChildRoom(j, abs, es[0].name);
        OrderIrrelevant(j, k, vis, JoinClean(abs, es[0].name), ChildPath(rel, es[0].name));
      }
      BelowSame(j, k, vis, abs, rel, es[1..]);
      BelowIs(j, vis, abs, rel, es);
      BelowIs(k, vis, abs, rel, es);
    }
  }

  lemma BelowNone(j: Job, vis: set<string>, abs: string, rel: string)
    requires Sane(j) && vis <= j.fs.realPaths
    ensures Below(j, vis, abs, rel, []) == []
  {
  }

  lemma IsDirectoryName(e: Entry)
    requires IsDirectory(e)
    ensures GoodName(e.name) && e.kind == DIRECTORY
  {
  }

  lemma BelowIs(j: Job, vis: set<string>, abs: string, rel: string, es: seq<Entry>)
    requires Sane(j) && vis <= j.fs.realPaths && es != []
    ensures var v := Visit(ChildPath(rel, es[0].name), es[0]);
            Below(j, vis, abs, rel, es)
            == (if IsDirectory(es[0]) then [v] + Listing(j, vis, JoinClean(abs, es[0].name), ChildPath(rel, es[0].name)) else [v])
               + Below(j, vis, abs, rel, es[1..])
  {
    hide JoinClean, ChildPath, Sane, Listing, IsDirectory;
  }

  lemma Agreeing(j: Job, k: Job)
    requires SameButOrder(j, k)
    ensures k.fs.realPaths == j.fs.realPaths
  {
  }

  /** When one order of the listings gives a snapshot, any other order gives the same root and the same
      totals, or stops at the file limit; and it can only stop when the snapshot fills the limit exactly. */
  lemma OrderDecidesOnlyAtTheLimit(j: Job, k: Job, root: string)
    requires Sane(j) && Sane(k) && SameButOrder(j, k) && BuildDir(j, {}, EMPTY, root, "").Ok?
    ensures var (a, b) := (BuildDir(j, {}, EMPTY, root, "").value, BuildDir(k, {}, EMPTY, root, ""));
            if b.Ok? then b.value.1 == a.1 && TotalsOf(b.value.0) == TotalsOf(a.0)
            else b.error == TooManyFiles && a.0.fileCount >= j.opts.maxFiles
  {
    OrderIrrelevant(j, k, {}, root, "");
    DirMeans(j, {}, EMPTY, root, "");
    DirMeans(k, {}, EMPTY, root, "");
    hide BuildDir, Entries, Listing, Sane;
  }

  // ---- At the limit the order can decide ----

  const SMALL: DirEnt := DirEnt("a", false)
  const LARGE: DirEnt := DirEnt("b", false)

  /** A directory with one file that fits and one that is too large, and room for one file. */
  function TwoFiles(c: Codec, listing: seq<DirEnt>): Job {
    var info := (p: string) => Some(Info(false, false, 0, if p == JoinClean("r", "b") then 9 else 0));
    Job(c,
        FileSystem({"r"}, 0, (p: string) => if p == "r" then Some("r") else None,
                   (p: string) => if p == "r" then Some(listing) else None,
                   info, info, (p: string) => None, (p: string) => Some([])),
        Options((p: string, dir: bool) => false, false, 1, 1))
  }

  lemma TwoPaths()
    ensures JoinClean("r", "a") != JoinClean("r", "b")
  {
    assert JoinParts(["r"]) == "r";
    JoinCleanAdds(["r"], "a");
    JoinCleanAdds(["r"], "b");
    if JoinClean("r", "a") == JoinClean("r", "b") {
      JoinIsInjective(["r"] + ["a"], ["r"] + ["b"]);
    }
  }

  lemma TwoLooks(c: Codec, listing: seq<DirEnt>)
    ensures Look(TwoFiles(c, listing), "r", "", SMALL) == Ok(Info(false, false, 0, 0))
    ensures Look(TwoFiles(c, listing), "r", "", LARGE) == Ok(Info(false, false, 0, 9))
  {
    TwoPaths();
  }

  lemma TwoSane(c: Codec, listing: seq<DirEnt>)
    requires forall es :: c.decode(c.encode(es)) == Some(es)
    requires listing == [SMALL, LARGE] || listing == [LARGE, SMALL]
    ensures Sane(TwoFiles(c, listing))
  {
    assert GoodName("a") && GoodName("b") && "a"[0] != "b"[0];
  }

  lemma SmallFirst(c: Codec)
    requires Sane(TwoFiles(c, [SMALL, LARGE]))
    ensures BuildDir(TwoFiles(c, [SMALL, LARGE]), {}, EMPTY, "r", "") == Err(TooManyFiles)
  {
    var both := [SMALL, LARGE];
    var j := TwoFiles(c, both);
    TwoLooks(c, both);
    DirOf(j, {}, EMPTY, "r", "");
    hide BuildDir, BuildAll, JoinClean, ChildPath, SortByName, Look, Sane;
    assert both[0..] == both;
    AllNext(j, Stack(j, {}, "r"), EMPTY, [], "r", "", both, 0);
    var (st, e) := BuildChild(j, Stack(j, {}, "r"), EMPTY, "r", "", SMALL).value;
    AllNext(j, Stack(j, {}, "r"), st, [] + [e], "r", "", both, 1);
  }

  lemma LargeFirst(c: Codec)
    requires Sane(TwoFiles(c, [LARGE, SMALL]))
    ensures var b := BuildDir(TwoFiles(c, [LARGE, SMALL]), {}, EMPTY, "r", ""); b.Ok? && b.value.0.fileCount == 1
  {
    var both := [LARGE, SMALL];
    var j := TwoFiles(c, both);
    TwoLooks(c, both);
    DirOf(j, {}, EMPTY, "r", "");
    hide BuildDir, BuildAll, JoinClean, ChildPath, SortByName, Look, Sane;
    assert both[0..] == both && both[2..] == [];
    AllNext(j, Stack(j, {}, "r"), EMPTY, [], "r", "", both, 0);
    AllNext(j, Stack(j, {}, "r"), EMPTY, [], "r", "", both, 1);
    var (st, e) := BuildChild(j, Stack(j, {}, "r"), EMPTY, "r", "", SMALL).value;
    AllDone(j, Stack(j, {}, "r"), st, [] + [e], "r", "");
  }

  /** With the small file first the capture stops at the limit; with the large one first it succeeds. */
  lemma OrderCanDecide(c: Codec)
    requires forall es :: c.decode(c.encode(es)) == Some(es)
    ensures var j, k := TwoFiles(c, [SMALL, LARGE]), TwoFiles(c, [LARGE, SMALL]);
            && Sane(j) && Sane(k) && SameButOrder(j, k)
            && BuildDir(j, {}, EMPTY, "r", "") == Err(TooManyFiles)
            && BuildDir(k, {}, EMPTY, "r", "").Ok?
  {
    TwoSane(c, [SMALL, LARGE]);
    TwoSane(c, [LARGE, SMALL]);
    SmallFirst(c);
    LargeFirst(c);
    hide BuildDir, Sane;
  }
}

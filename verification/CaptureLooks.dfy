/** The file limit in the one order in which a capture looks at its files: exactly when it succeeds. */
module CaptureLooks {
  import opened Basics
  import opened Paths
  import opened Snapshots
  import opened NameOrder
  import opened Captures
  import opened CaptureMeaning
  import opened CaptureOrder

  // ---- The regular files that are looked at, in order; true for those that get an entry ----

  ghost function LooksDir(j: Job, vis: set<string>, abs: string, rel: string): seq<bool>
    requires Sane(j) && vis <= j.fs.realPaths
    decreases |j.fs.realPaths - vis|, Room(j, abs), 3, 0
  {
    var listing := j.fs.readDir(abs);
    if Revisits(j, vis, abs) || listing.None? then []
    else
      Entering(j, vis, abs);
      LooksAll(j, Stack(j, vis, abs), abs, rel, listing.value)
  }

  ghost function LooksAll(j: Job, vis: set<string>, abs: string, rel: string, des: seq<DirEnt>): seq<bool>
    requires Sane(j) && vis <= j.fs.realPaths
    decreases |j.fs.realPaths - vis|, Span(j, abs), 2, |des|
  {
    if des == [] then [] else LooksChild(j, vis, abs, rel, des[0]) + LooksAll(j, vis, abs, rel, des[1..])
  }

  ghost function LooksChild(j: Job, vis: set<string>, abs: string, rel: string, de: DirEnt): seq<bool>
    requires Sane(j) && vis <= j.fs.realPaths
    decreases |j.fs.realPaths - vis|, Span(j, abs), 1, 0
  {
    ChildRoom(j, abs, de.name);
    var look := Look(j, abs, rel, de);
    if look.Err? || look.value.link then []
    else if look.value.dir then LooksDir(j, vis, JoinClean(abs, de.name), ChildPath(rel, de.name))
    else [!LeavesOut(j, abs, rel, de)]
  }

  function Kept(looks: seq<bool>): nat {
    if looks == [] then 0 else (if looks[0] then 1 else 0) + Kept(looks[1..])
  }

  /** With `n` files so far, the limit is not reached at any file that is looked at. */
  predicate Passes(n: nat, looks: seq<bool>, limit: int)
    decreases |looks|
  {
    looks == [] || (n < limit && Passes(n + Kept([looks[0]]), looks[1..], limit))
  }

  lemma {:induction false} KeptConcat(a: seq<bool>, b: seq<bool>)
    ensures Kept(a + b) == Kept(a) + Kept(b)
  {
    if a == [] {
      assert a + b == b;
    } else {
      assert (a + b)[1..] == a[1..] + b;
      KeptConcat(a[1..], b);
    }
  }

  lemma {:induction false} PassesConcat(n: nat, a: seq<bool>, b: seq<bool>, limit: int)
    ensures Passes(n, a + b, limit) <==> Passes(n, a, limit) && Passes(n + Kept(a), b, limit)
    decreases |a|
  {
    if a == [] {
      assert a + b == b;
    } else {
      assert (a + b)[1..] == a[1..] + b && [a[0]] + a[1..] == a;
      KeptConcat([a[0]], a[1..]);
      PassesConcat(n + Kept([a[0]]), a[1..], b, limit);
    }
  }

  // ---- What the builder does with them ----

  /** The builder gets past the files exactly when the limit is not reached at any of them, and then has
      counted those that get an entry. */
  ghost predicate Counts(j: Job, st: Built, passed: bool, next: Built, looks: seq<bool>) {
    && (passed <==> Passes(st.fileCount, looks, j.opts.maxFiles))
    && (passed ==> next.fileCount == st.fileCount + Kept(looks))
  }

  lemma CountsThen(j: Job, st: Built, mid: Built, last: Built, p: bool, q: bool, a: seq<bool>, b: seq<bool>)
    requires Counts(j, st, p, mid, a) && (p ==> Counts(j, mid, q, last, b))
    ensures Counts(j, st, p && q, last, a + b)
  {
    PassesConcat(st.fileCount, a, b, j.opts.maxFiles);
    KeptConcat(a, b);
    hide Passes, Kept;
  }

  predicate Goes(b: Result<(Built, Entry), BuildError>) {
    b.Ok? || !Fatal(b.error)
  }

  /** The state afterwards; what is left out leaves none behind. */
  function StateOf<T>(st: Built, b: Result<(Built, T), BuildError>): Built {
    if b.Ok? then b.value.0 else st
  }

  lemma {:induction false} DirLooks(j: Job, vis: set<string>, st: Built, abs: string, rel: string)
    requires Sane(j) && vis <= j.fs.realPaths && Entries(j, vis, abs, rel).Ok?
    ensures var b := BuildDir(j, vis, st, abs, rel); Counts(j, st, b.Ok?, StateOf(st, b), LooksDir(j, vis, abs, rel))
    ensures Kept(LooksDir(j, vis, abs, rel)) == Count(Listing(j, vis, abs, rel)).files
    decreases |j.fs.realPaths - vis|, Room(j, abs), 3, 0
  {
    hide *;
    DirOf(j, vis, st, abs, rel);
    EntriesOf(j, vis, abs, rel);
    LooksOf(j, vis, abs, rel);
    Entering(j, vis, abs);
    var now, listing := Stack(j, vis, abs), j.fs.readDir(abs).value;
    AllLooks(j, now, st, [], abs, rel, listing);
    CountSorted(j, now, abs, rel, KeptEntries(j, now, abs, rel, listing).value);
    SameCounts(j, st, BuildAll(j, now, st, [], abs, rel, listing), BuildDir(j, vis, st, abs, rel), LooksDir(j, vis, abs, rel));
  }

  lemma LooksOf(j: Job, vis: set<string>, abs: string, rel: string)
    requires Sane(j) && vis <= j.fs.realPaths && Entries(j, vis, abs, rel).Ok?
    ensures !Revisits(j, vis, abs) && j.fs.readDir(abs).Some? && Stack(j, vis, abs) <= j.fs.realPaths
    ensures LooksDir(j, vis, abs, rel) == LooksAll(j, Stack(j, vis, abs), abs, rel, j.fs.readDir(abs).value)
  {
    EntriesOf(j, vis, abs, rel);
    hide LooksAll, Stack, Revisits, KeptEntries, Below, Sane;
  }

  /** Storing the tree counts no file. */
  lemma SameCounts(
    j: Job, st: Built, all: Result<(Built, seq<Entry>), BuildError>, b: Result<(Built, Hash), BuildError>, looks: seq<bool>)
    requires Counts(j, st, all.Ok?, StateOf(st, all), looks)
    requires if all.Err? then b.Err?
             else b == Ok((AddTree(j, all.value.0, SortByName(all.value.1)), TreeHash(j, SortByName(all.value.1))))
    ensures Counts(j, st, b.Ok?, StateOf(st, b), looks)
  {
    hide Passes, Kept, SortByName;
  }

  lemma {:induction false} AllLooks(
    j: Job, vis: set<string>, st: Built, es: seq<Entry>, abs: string, rel: string, des: seq<DirEnt>)
    requires Sane(j) && vis <= j.fs.realPaths && KeptEntries(j, vis, abs, rel, des).Ok?
    ensures var b := BuildAll(j, vis, st, es, abs, rel, des);
            Counts(j, st, b.Ok?, StateOf(st, b), LooksAll(j, vis, abs, rel, des))
    ensures Kept(LooksAll(j, vis, abs, rel, des)) == Count(Below(j, vis, abs, rel, KeptEntries(j, vis, abs, rel, des).value)).files
    decreases |j.fs.realPaths - vis|, Span(j, abs), 2, |des|
  {
    hide *;
    if des == [] {
      NothingLooked(j, vis, st, es, abs, rel);
    } else {
      assert des[0..] == des;
      AllNext(j, vis, st, es, abs, rel, des, 0);
      KeptNext(j, vis, abs, rel, des);
      LooksNext(j, vis, abs, rel, des);
      var child, t := BuildChild(j, vis, st, abs, rel, des[0]), Child(j, vis, abs, rel, des[0]);
      ChildGoesOn(t);
      ChildLooks(j, vis, st, abs, rel, des[0]);
      StepIs(st, child);
      var mid, es' := StateOf(st, child), if child.Ok? then es + [child.value.1] else es;
      AllLooks(j, vis, mid, es', abs, rel, des[1..]);
      var rest, all := BuildAll(j, vis, mid, es', abs, rel, des[1..]), BuildAll(j, vis, st, es, abs, rel, des);
      var a, b := LooksChild(j, vis, abs, rel, des[0]), LooksAll(j, vis, abs, rel, des[1..]);
      CountsThen(j, st, mid, StateOf(mid, rest), Goes(child), rest.Ok?, a, b);
      CountsSame(j, st, mid, child, rest, all, a + b);
      KeptConcat(a, b);
      if t.Ok? {
        BelowFirst(j, vis, abs, rel, t.value, KeptEntries(j, vis, abs, rel, des[1..]).value);
      }
      FilesAdd(if t.Ok? then Count(Block(j, vis, abs, rel, t.value)) else ZERO,
               Count(Below(j, vis, abs, rel, KeptEntries(j, vis, abs, rel, des[1..]).value)));
    }
  }

  lemma NothingLooked(j: Job, vis: set<string>, st: Built, es: seq<Entry>, abs: string, rel: string)
    requires Sane(j) && vis <= j.fs.realPaths && KeptEntries(j, vis, abs, rel, []).Ok?
    ensures BuildAll(j, vis, st, es, abs, rel, []) == Ok((st, es))
    ensures Counts(j, st, true, st, LooksAll(j, vis, abs, rel, [])) && StateOf<seq<Entry>>(st, Ok((st, es))) == st
    ensures Kept(LooksAll(j, vis, abs, rel, [])) == Count(Below(j, vis, abs, rel, KeptEntries(j, vis, abs, rel, []).value)).files
  {
    AllDone(j, vis, st, es, abs, rel);
    BelowNone(j, vis, abs, rel);
    CountNone();
    hide BuildAll, Count, Below;
  }

  lemma LooksNext(j: Job, vis: set<string>, abs: string, rel: string, des: seq<DirEnt>)
    requires Sane(j) && vis <= j.fs.realPaths && des != []
    ensures LooksAll(j, vis, abs, rel, des) == LooksChild(j, vis, abs, rel, des[0]) + LooksAll(j, vis, abs, rel, des[1..])
  {
    hide LooksChild, Sane;
  }

  lemma ChildGoesOn(t: Result<Entry, BuildError>)
    ensures t.Err? && t.error == CyclicLink ==> Fatal(t.error)
  {
  }

  lemma StepIs(st: Built, child: Result<(Built, Entry), BuildError>)
    ensures StateOf(st, child) == (if child.Ok? then child.value.0 else st)
    ensures Goes(child) <==> (child.Err? ==> !Fatal(child.error))
  {
  }

  lemma FilesAdd(a: Totals, b: Totals)
    ensures Plus(a, b).files == a.files + b.files && ZERO.files == 0
  {
  }

  lemma CountsSame(
    j: Job, st: Built, mid: Built, child: Result<(Built, Entry), BuildError>, rest: Result<(Built, seq<Entry>), BuildError>,
    all: Result<(Built, seq<Entry>), BuildError>, looks: seq<bool>)
    requires Counts(j, st, Goes(child) && rest.Ok?, StateOf(mid, rest), looks)
    requires if Goes(child) then all == rest else all.Err?
    ensures Counts(j, st, all.Ok?, StateOf(st, all), looks)
  {
    hide Passes, Kept, Goes;
  }

  lemma {:induction false} ChildLooks(j: Job, vis: set<string>, st: Built, abs: string, rel: string, de: DirEnt)
    requires Sane(j) && vis <= j.fs.realPaths && Child(j, vis, abs, rel, de) != Err(CyclicLink)
    ensures var b := BuildChild(j, vis, st, abs, rel, de); Counts(j, st, Goes(b), StateOf(st, b), LooksChild(j, vis, abs, rel, de))
    ensures var t := Child(j, vis, abs, rel, de);
            Kept(LooksChild(j, vis, abs, rel, de)) == if t.Ok? then Count(Block(j, vis, abs, rel, t.value)).files else 0
    decreases |j.fs.realPaths - vis|, Span(j, abs), 1, 0
  {
    hide *;
    if LeadsDown(j, abs, rel, de) {
      var path, under := JoinClean(abs, de.name), ChildPath(rel, de.name);
      ChildRoom(j, abs, de.name);
      DownIs(j, vis, st, abs, rel, de);
      LooksDown(j, vis, abs, rel, de);
      DirMeans(j, vis, st, path, under);
      if Entries(j, vis, path, under).Ok? {
        DirLooks(j, vis, st, path, under);
        DirFailsFatally(j, vis, st, path, under);
        DownCounts(j, vis, st, abs, rel, de);
      } else {
        UnreadableLooks(j, vis, st, path, under);
        DownFails(j, vis, st, abs, rel, de);
      }
    } else {
      LeafLooks(j, vis, st, abs, rel, de);
    }
  }

  lemma LooksDown(j: Job, vis: set<string>, abs: string, rel: string, de: DirEnt)
    requires Sane(j) && vis <= j.fs.realPaths && LeadsDown(j, abs, rel, de)
    ensures LooksChild(j, vis, abs, rel, de) == LooksDir(j, vis, JoinClean(abs, de.name), ChildPath(rel, de.name))
  {
    hide LooksDir, Look, JoinClean, ChildPath, Sane, Room, Span, GoodName;
  }

  /** A directory whose tree can be built fails only at the limit. */
  lemma DirFailsFatally(j: Job, vis: set<string>, st: Built, abs: string, rel: string)
    requires Sane(j) && vis <= j.fs.realPaths && Entries(j, vis, abs, rel).Ok?
    ensures var b := BuildDir(j, vis, st, abs, rel); b.Err? ==> Fatal(b.error)
  {
    DirOf(j, vis, st, abs, rel);
    EntriesOf(j, vis, abs, rel);
    hide BuildDir, BuildAll, Entries, KeptEntries, Stack, Revisits, Listing, Below, SortByName;
  }

  lemma DownCounts(j: Job, vis: set<string>, st: Built, abs: string, rel: string, de: DirEnt)
    requires Sane(j) && vis <= j.fs.realPaths && LeadsDown(j, abs, rel, de)
    requires var path, under := JoinClean(abs, de.name), ChildPath(rel, de.name);
             var b := BuildDir(j, vis, st, path, under);
             && Entries(j, vis, path, under).Ok? && (b.Err? ==> Fatal(b.error))
             && Counts(j, st, b.Ok?, StateOf(st, b), LooksDir(j, vis, path, under))
             && Kept(LooksDir(j, vis, path, under)) == Count(Listing(j, vis, path, under)).files
    ensures var b := BuildChild(j, vis, st, abs, rel, de); Counts(j, st, Goes(b), StateOf(st, b), LooksChild(j, vis, abs, rel, de))
    ensures var t := Child(j, vis, abs, rel, de);
            t.Ok? && Kept(LooksChild(j, vis, abs, rel, de)) == Count(Block(j, vis, abs, rel, t.value)).files
  {
    DownIs(j, vis, st, abs, rel, de);
    LooksDown(j, vis, abs, rel, de);
    BlockCount(j, vis, abs, rel, Child(j, vis, abs, rel, de).value);
    hide BuildDir, BuildChild, Child, Entries, Listing, LooksDir, LooksChild, LeadsDown, JoinClean, ChildPath, Look, Sane, Block,
         Count, Counts, Kept, GoodName, TreeHash, KeepsChild, KeepsDir;
  }

  /** A directory that cannot be read has no files to look at and is left out. */
  lemma UnreadableLooks(j: Job, vis: set<string>, st: Built, abs: string, rel: string)
    requires Sane(j) && vis <= j.fs.realPaths && Entries(j, vis, abs, rel).Err? && Entries(j, vis, abs, rel).error != CyclicLink
    ensures LooksDir(j, vis, abs, rel) == [] && BuildDir(j, vis, st, abs, rel) == Err(Unreadable)
    ensures Entries(j, vis, abs, rel) == Err(Unreadable)
  {
    DirOf(j, vis, st, abs, rel);
    EntriesOf(j, vis, abs, rel);
    hide BuildDir, BuildAll, Entries, KeptEntries, Stack, Revisits, Listing, Below, LooksAll, SortByName;
  }

  lemma DownFails(j: Job, vis: set<string>, st: Built, abs: string, rel: string, de: DirEnt)
    requires Sane(j) && vis <= j.fs.realPaths && LeadsDown(j, abs, rel, de)
    requires var path, under := JoinClean(abs, de.name), ChildPath(rel, de.name);
             && LooksDir(j, vis, path, under) == [] && BuildDir(j, vis, st, path, under) == Err(Unreadable)
             && Entries(j, vis, path, under) == Err(Unreadable)
    ensures var b := BuildChild(j, vis, st, abs, rel, de); Counts(j, st, Goes(b), StateOf(st, b), LooksChild(j, vis, abs, rel, de))
    ensures Child(j, vis, abs, rel, de).Err? && Kept(LooksChild(j, vis, abs, rel, de)) == 0
  {
    DownIs(j, vis, st, abs, rel, de);
    LooksDown(j, vis, abs, rel, de);
    hide BuildDir, BuildChild, Child, Entries, LooksDir, LooksChild, LeadsDown, JoinClean, ChildPath, Look, Sane;
  }

  lemma LeafLooks(j: Job, vis: set<string>, st: Built, abs: string, rel: string, de: DirEnt)
    requires Sane(j) && vis <= j.fs.realPaths && !LeadsDown(j, abs, rel, de)
    ensures var b := BuildChild(j, vis, st, abs, rel, de); Counts(j, st, Goes(b), StateOf(st, b), LooksChild(j, vis, abs, rel, de))
    ensures var t := Child(j, vis, abs, rel, de);
            Kept(LooksChild(j, vis, abs, rel, de)) == if t.Ok? then Count(Block(j, vis, abs, rel, t.value)).files else 0
  {
    hide *;
    LeafIs(j, vis, st, abs, rel, de);
    LeafCounts(j, st, BuildChild(j, vis, st, abs, rel, de), Child(j, vis, abs, rel, de), LooksChild(j, vis, abs, rel, de));
    var t := Child(j, vis, abs, rel, de);
    if t.Ok? {
      BlockCount(j, vis, abs, rel, t.value);
    }
  }

  /** A link or nothing is not looked at; a regular file is, and gets an entry unless it is left out. */
  lemma LeafIs(j: Job, vis: set<string>, st: Built, abs: string, rel: string, de: DirEnt)
    requires Sane(j) && vis <= j.fs.realPaths && !LeadsDown(j, abs, rel, de)
    ensures var b, t := BuildChild(j, vis, st, abs, rel, de), Child(j, vis, abs, rel, de);
            Leaf(j, st, b, t, LooksChild(j, vis, abs, rel, de)) && (t.Ok? ==> GoodName(t.value.name) && t.value.kind != DIRECTORY)
  {
    LookFails(j, abs, rel, de);
    hide JoinClean, ChildPath, Sane, BuildDir, Entries, GoodName, Look, Room, Span, LooksDir;
  }

  lemma LookFails(j: Job, abs: string, rel: string, de: DirEnt)
    ensures Look(j, abs, rel, de).Err? ==> !Fatal(Look(j, abs, rel, de).error)
  {
  }

  ghost predicate Leaf(
    j: Job, st: Built, b: Result<(Built, Entry), BuildError>, t: Result<Entry, BuildError>, looks: seq<bool>)
  {
    if looks == [] then
      (b.Ok? ==> b.value.0.fileCount == st.fileCount) && (b.Err? ==> !Fatal(b.error)) && (t.Ok? ==> One(t.value).files == 0)
    else
      && looks == [t.Ok?] && (t.Ok? ==> One(t.value).files == 1)
      && if st.fileCount >= j.opts.maxFiles then b == Err(TooManyFiles)
         else if t.Ok? then b.Ok? && b.value.0.fileCount == st.fileCount + 1
         else b.Err? && !Fatal(b.error)
  }

  lemma LeafCounts(
    j: Job, st: Built, b: Result<(Built, Entry), BuildError>, t: Result<Entry, BuildError>, looks: seq<bool>)
    requires Leaf(j, st, b, t, looks)
    ensures Counts(j, st, Goes(b), StateOf(st, b), looks)
    ensures Kept(looks) == if t.Ok? then One(t.value).files else 0
  {
    if looks != [] {
      assert looks[1..] == [] && [looks[0]] == looks;
    }
  }

  // ---- The exact condition ----

  /** The limit is not reached when a file is looked at, for each of them. */
  ghost predicate AllWithin(looks: seq<bool>, limit: int) {
    forall i :: 0 <= i < |looks| ==> Kept(looks[..i]) < limit
  }

  /** It is enough to look at the last one. */
  lemma LastDecides(looks: seq<bool>, limit: int)
    ensures Passes(0, looks, limit) <==> AllWithin(looks, limit)
    ensures AllWithin(looks, limit)
            <==> looks == [] || Kept(looks) < limit || (Kept(looks) == limit && looks[|looks| - 1])
  {
    PassesIsWithin(0, looks, limit);
    if looks != [] {
      var init, last := looks[..|looks| - 1], looks[|looks| - 1];
      assert looks == init + [last];
      KeptConcat(init, [last]);
      assert [last][1..] == [] && Kept([last]) == if last then 1 else 0;
      forall i | 0 <= i < |looks| ensures Kept(looks[..i]) <= Kept(init) {
        assert init == looks[..i] + init[i..];
        KeptConcat(looks[..i], init[i..]);
      }
      hide Kept;
      assert looks[..|looks| - 1] == init;
    }
  }

  lemma {:induction false} PassesIsWithin(n: nat, looks: seq<bool>, limit: int)
    ensures Passes(n, looks, limit) <==> forall i :: 0 <= i < |looks| ==> n + Kept(looks[..i]) < limit
    decreases |looks|
  {
    if looks != [] {
      var first, rest := [looks[0]], looks[1..];
      PassesIsWithin(n + Kept(first), rest, limit);
      forall i | 0 < i < |looks| ensures Kept(looks[..i]) == Kept(first) + Kept(rest[..i - 1]) {
        assert looks[..i] == first + rest[..i - 1];
        KeptConcat(first, rest[..i - 1]);
      }
      assert Kept(looks[..0]) == 0;
      hide Kept;
      forall i | 0 <= i < |rest| && Passes(n, looks, limit) ensures n + Kept(first) + Kept(rest[..i]) < limit {}
      if forall i :: 0 <= i < |looks| ==> n + Kept(looks[..i]) < limit {
        assert n + Kept(looks[..0]) < limit;
        forall i | 0 <= i < |rest| ensures n + Kept(first) + Kept(rest[..i]) < limit {
          assert n + Kept(looks[..i + 1]) < limit;
        }
      }
    }
  }

  /** In the order in which its listings come, a capture succeeds iff its tree can be built and the limit is
      not reached when any regular file is looked at; which is so iff none is, or the files kept stay below the
      limit, or they fill it and the last one looked at is kept. */
  lemma CaptureFitsIff(j: Job, root: string)
    requires Sane(j)
    ensures var looks, files := LooksDir(j, {}, root, ""), Count(Listing(j, {}, root, "")).files;
            && (BuildDir(j, {}, EMPTY, root, "").Ok? <==> Entries(j, {}, root, "").Ok? && AllWithin(looks, j.opts.maxFiles))
            && (Entries(j, {}, root, "").Ok? ==> Kept(looks) == files)
            && (AllWithin(looks, j.opts.maxFiles)
                <==> looks == [] || Kept(looks) < j.opts.maxFiles
                     || (Kept(looks) == j.opts.maxFiles && looks[|looks| - 1]))
  {
    hide *;
    var looks := LooksDir(j, {}, root, "");
    LastDecides(looks, j.opts.maxFiles);
    DirMeans(j, {}, EMPTY, root, "");
    AgreeGives(j, EMPTY, BuildDir(j, {}, EMPTY, root, ""), Entries(j, {}, root, ""), WithSelf(Listing(j, {}, root, "")),
               KeepsDir(j, {}, root, ""));
    if Entries(j, {}, root, "").Ok? {
      DirLooks(j, {}, EMPTY, root, "");
      CountsGives(j, BuildDir(j, {}, EMPTY, root, "").Ok?, StateOf(EMPTY, BuildDir(j, {}, EMPTY, root, "")), looks);
    }
  }

  lemma AgreeGives(
    j: Job, st: Built, b: Result<(Built, Hash), BuildError>, t: Result<seq<Entry>, BuildError>, more: Totals, keeps: bool)
    requires Agree(j, st, b, HashOf(j, t), more, keeps)
    ensures b.Ok? ==> t.Ok?
  {
    hide Adds, NoRoom;
  }

  lemma CountsGives(j: Job, passed: bool, next: Built, looks: seq<bool>)
    requires Counts(j, EMPTY, passed, next, looks)
    ensures passed <==> Passes(0, looks, j.opts.maxFiles)
  {
    hide Passes, Kept;
  }

  /** A directory listed by name whose one file fits the limit, and whose capture fails all the same: the file
      that is too large comes after it. */
  lemma FittingCaptureFails(c: Codec)
    requires forall es :: c.decode(c.encode(es)) == Some(es)
    ensures var j := TwoFiles(c, [SMALL, LARGE]);
            && Less(SMALL.name, LARGE.name) && Sane(j) && Entries(j, {}, "r", "").Ok?
            && Count(Listing(j, {}, "r", "")).files == 1 == j.opts.maxFiles
            && BuildDir(j, {}, EMPTY, "r", "") == Err(TooManyFiles)
  {
    assert Less("a", "b") by { assert "a"[0] < "b"[0]; }
    var j, k := TwoFiles(c, [SMALL, LARGE]), TwoFiles(c, [LARGE, SMALL]);
    OrderCanDecide(c);
    LargeFirst(c);
    assert j.opts.maxFiles == 1;
    OrderIrrelevant(j, k, {}, "r", "");
    DirMeans(k, {}, EMPTY, "r", "");
    hide BuildDir, Entries, Listing, Sane, Count, KeepsDir, TwoFiles, Less, SameButOrder;
  }
}

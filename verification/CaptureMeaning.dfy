/** What a capture is: a tree computed from the file system alone, whatever the builder has collected so far. */
module CaptureMeaning {
  import opened Basics
  import opened Paths
  import opened Snapshots
  import opened NameOrder
  import opened Captures

  /** The entries of a directory, in order. */
  ghost function Entries(j: Job, vis: set<string>, abs: string, rel: string): (r: Result<seq<Entry>, BuildError>)
    requires Sane(j) && vis <= j.fs.realPaths
    ensures r.Err? ==> r.error != TooManyFiles
    decreases |j.fs.realPaths - vis|, Room(j, abs), 3, 0
  {
    var listing := j.fs.readDir(abs);
    if Revisits(j, vis, abs) then Err(CyclicLink)
    else if listing.None? then Err(Unreadable)
    else
      Entering(j, vis, abs);
      var es :- KeptEntries(j, Stack(j, vis, abs), abs, rel, listing.value);
      Ok(SortByName(es))
  }

  /** The listed names that have an entry. */
  ghost function KeptEntries(j: Job, vis: set<string>, abs: string, rel: string, des: seq<DirEnt>): (r: Result<seq<Entry>, BuildError>)
    requires Sane(j) && vis <= j.fs.realPaths
    ensures r.Err? ==> r.error == CyclicLink
    decreases |j.fs.realPaths - vis|, Span(j, abs), 2, |des|
  {
    if des == [] then Ok([])
    else
      var first := Child(j, vis, abs, rel, des[0]);
      if first.Err? && Fatal(first.error) then Err(first.error)
      else
        var rest :- KeptEntries(j, vis, abs, rel, des[1..]);
        Ok(if first.Ok? then [first.value] + rest else rest)
  }

  ghost function Child(j: Job, vis: set<string>, abs: string, rel: string, de: DirEnt): (r: Result<Entry, BuildError>)
    requires Sane(j) && vis <= j.fs.realPaths
    ensures if r.Ok? then r.value.name == de.name else r.error != TooManyFiles
    decreases |j.fs.realPaths - vis|, Span(j, abs), 1, 0
  {
    ChildRoom(j, abs, de.name);
    var info :- Look(j, abs, rel, de);
    var path := JoinClean(abs, de.name);
    if info.link then
      match j.fs.readlink(path)
      case None => Err(Unreadable)
      case Some(target) => Ok(Entry(de.name, SYMLINK, info.mode, |target|, j.codec.digest(target)))
    else if info.dir then
      var es :- Entries(j, vis, path, ChildPath(rel, de.name));
      Ok(Entry(de.name, DIRECTORY, info.mode, 0, TreeHash(j, es)))
    else if info.size > j.opts.maxFileSize then Err(FileTooLarge)
    else
      match j.fs.content(path)
      case None => Err(Unreadable)
      case Some(bytes) => Ok(Entry(de.name, FILE, info.mode, info.size, j.codec.digest(bytes)))
  }

  // ---- Everything below a directory ----

  /** What there is below a directory, every directory followed by its own content. */
  ghost function Listing(j: Job, vis: set<string>, abs: string, rel: string): seq<Visit>
    requires Sane(j) && vis <= j.fs.realPaths
    decreases |j.fs.realPaths - vis|, Room(j, abs), 3, 0
  {
    var es := Entries(j, vis, abs, rel);
    if es.Err? then []
    else
      Entering(j, vis, abs);
      Below(j, Stack(j, vis, abs), abs, rel, es.value)
  }

  ghost function Below(j: Job, vis: set<string>, abs: string, rel: string, es: seq<Entry>): seq<Visit>
    requires Sane(j) && vis <= j.fs.realPaths
    decreases |j.fs.realPaths - vis|, Span(j, abs), 2, |es|
  {
    if es == [] then [] else Block(j, vis, abs, rel, es[0]) + Below(j, vis, abs, rel, es[1..])
  }

  ghost function Block(j: Job, vis: set<string>, abs: string, rel: string, e: Entry): seq<Visit>
    requires Sane(j) && vis <= j.fs.realPaths
    decreases |j.fs.realPaths - vis|, Span(j, abs), 1, 0
  {
    var path := ChildPath(rel, e.name);
    if !IsDirectory(e) then [Visit(path, e)]
    else
      ChildRoom(j, abs, e.name);
      [Visit(path, e)] + Listing(j, vis, JoinClean(abs, e.name), path)
  }

  predicate IsDirectory(e: Entry) {
    e.kind == DIRECTORY && GoodName(e.name)
  }

  // ---- Regular files that are looked at and then left out ----

  /** A regular file that is looked at and left out, because it is too large or cannot be read. */
  predicate LeavesOut(j: Job, abs: string, rel: string, de: DirEnt) {
    var look := Look(j, abs, rel, de);
    && look.Ok? && !look.value.link && !look.value.dir
    && (look.value.size > j.opts.maxFileSize || j.fs.content(JoinClean(abs, de.name)).None?)
  }

  predicate LeadsDown(j: Job, abs: string, rel: string, de: DirEnt) {
    var look := Look(j, abs, rel, de);
    look.Ok? && !look.value.link && look.value.dir
  }

  /** Below a directory no regular file is left out. */
  ghost predicate KeepsDir(j: Job, vis: set<string>, abs: string, rel: string)
    requires Sane(j) && vis <= j.fs.realPaths
    decreases |j.fs.realPaths - vis|, Room(j, abs), 3, 0
  {
    var listing := j.fs.readDir(abs);
    !Revisits(j, vis, abs) && listing.Some? ==>
      (Entering(j, vis, abs); KeepsAll(j, Stack(j, vis, abs), abs, rel, listing.value))
  }

  ghost predicate KeepsAll(j: Job, vis: set<string>, abs: string, rel: string, des: seq<DirEnt>)
    requires Sane(j) && vis <= j.fs.realPaths
    decreases |j.fs.realPaths - vis|, Span(j, abs), 2, |des|
  {
    des != [] ==> KeepsChild(j, vis, abs, rel, des[0]) && KeepsAll(j, vis, abs, rel, des[1..])
  }

  ghost predicate KeepsChild(j: Job, vis: set<string>, abs: string, rel: string, de: DirEnt)
    requires Sane(j) && vis <= j.fs.realPaths
    decreases |j.fs.realPaths - vis|, Span(j, abs), 1, 0
  {
    ChildRoom(j, abs, de.name);
    && !LeavesOut(j, abs, rel, de)
    && (LeadsDown(j, abs, rel, de) ==> KeepsDir(j, vis, JoinClean(abs, de.name), ChildPath(rel, de.name)))
  }

  // ---- Counting ----

  datatype Totals = Totals(files: nat, dirs: nat, links: nat, bytes: nat)

  function Plus(a: Totals, b: Totals): Totals {
    Totals(a.files + b.files, a.dirs + b.dirs, a.links + b.links, a.bytes + b.bytes)
  }

  function One(e: Entry): Totals {
    if e.kind == FILE then Totals(1, 0, 0, e.size)
    else if e.kind == DIRECTORY then Totals(0, 1, 0, 0)
    else Totals(0, 0, 1, 0)
  }

  const ZERO: Totals := Totals(0, 0, 0, 0)

  function Count(vs: seq<Visit>): Totals {
    if vs == [] then ZERO else Plus(One(vs[0].entry), Count(vs[1..]))
  }

  lemma PlusRules(a: Totals, b: Totals, c: Totals)
    ensures Plus(ZERO, a) == a == Plus(a, ZERO)
    ensures Plus(a, Plus(b, c)) == Plus(Plus(a, b), c) == Plus(b, Plus(a, c))
  {
  }

  lemma CountCons(v: Visit, rest: seq<Visit>)
    ensures Count([v] + rest) == Plus(One(v.entry), Count(rest))
  {
    hide Plus, One;
    assert ([v] + rest)[1..] == rest;
  }

  lemma CountNone()
    ensures Count([]) == ZERO
  {
  }

  lemma {:induction false} CountConcat(a: seq<Visit>, b: seq<Visit>)
    ensures Count(a + b) == Plus(Count(a), Count(b))
  {
    hide *;
    CountNone();
    if a == [] {
      assert a + b == b;
      PlusRules(Count(b), ZERO, ZERO);
    } else {
      var v, rest := a[0], a[1..];
      assert a == [v] + rest;
      ConcatAssociative([v], rest, b);
      CountCons(v, rest + b);
      CountCons(v, rest);
      CountConcat(rest, b);
      PlusRules(One(v.entry), Count(rest), Count(b));
    }
  }

  lemma BelowCons(j: Job, vis: set<string>, abs: string, rel: string, e: Entry, es: seq<Entry>)
    requires Sane(j) && vis <= j.fs.realPaths
    ensures Below(j, vis, abs, rel, [e] + es) == Block(j, vis, abs, rel, e) + Below(j, vis, abs, rel, es)
  {
    hide Sane, Block;
    assert ([e] + es)[1..] == es;
  }

  lemma BelowFirst(j: Job, vis: set<string>, abs: string, rel: string, e: Entry, es: seq<Entry>)
    requires Sane(j) && vis <= j.fs.realPaths
    ensures Count(Below(j, vis, abs, rel, [e] + es)) == Plus(Count(Block(j, vis, abs, rel, e)), Count(Below(j, vis, abs, rel, es)))
  {
    hide *;
    BelowCons(j, vis, abs, rel, e, es);
    CountConcat(Block(j, vis, abs, rel, e), Below(j, vis, abs, rel, es));
  }

  lemma {:induction false} CountInsert(j: Job, vis: set<string>, abs: string, rel: string, e: Entry, es: seq<Entry>)
    requires Sane(j) && vis <= j.fs.realPaths
    ensures Count(Below(j, vis, abs, rel, Insert(e, es)))
            == Plus(Count(Block(j, vis, abs, rel, e)), Count(Below(j, vis, abs, rel, es)))
  {
    assert es != [] ==> es == [es[0]] + es[1..];
    InsertStep(e, es);
    hide *;
    if es == [] || Less(e.name, es[0].name) {
      BelowFirst(j, vis, abs, rel, e, es);
    } else {
      CountInsert(j, vis, abs, rel, e, es[1..]);
      BelowFirst(j, vis, abs, rel, es[0], Insert(e, es[1..]));
      BelowFirst(j, vis, abs, rel, es[0], es[1..]);
      PlusRules(Count(Block(j, vis, abs, rel, es[0])), Count(Block(j, vis, abs, rel, e)), Count(Below(j, vis, abs, rel, es[1..])));
    }
  }

  lemma InsertStep(e: Entry, es: seq<Entry>)
    ensures Insert(e, es) == if es == [] || Less(e.name, es[0].name) then [e] + es else [es[0]] + Insert(e, es[1..])
  {
  }

  /** What there is below a directory does not depend on the order of its entries. */
  lemma {:induction false} CountSorted(j: Job, vis: set<string>, abs: string, rel: string, es: seq<Entry>)
    requires Sane(j) && vis <= j.fs.realPaths
    ensures Count(Below(j, vis, abs, rel, SortByName(es))) == Count(Below(j, vis, abs, rel, es))
  {
    hide Below, Block, Count, Insert;
    if es != [] {
      CountSorted(j, vis, abs, rel, es[1..]);
      CountInsert(j, vis, abs, rel, es[0], SortByName(es[1..]));
      BelowFirst(j, vis, abs, rel, es[0], es[1..]);
      assert es == [es[0]] + es[1..];
    }
  }

  // ---- The builder computes that tree ----

  function TotalsOf(st: Built): Totals {
    Totals(st.fileCount, st.dirCount, st.symlinkCount, st.totalBytes)
  }

  /** The counters went up by `more`, and the file limit was kept. */
  ghost predicate Adds(j: Job, st: Built, next: Built, more: Totals) {
    TotalsOf(next) == Plus(TotalsOf(st), more) && next.fileCount <= Max(st.fileCount, j.opts.maxFiles)
  }

  /** The builder stopped at the file limit: what there is to add would fill it, and would overflow it when
      no file is left out. */
  ghost predicate NoRoom(j: Job, st: Built, more: Totals, keeps: bool) {
    if keeps then more.files > 0 && st.fileCount + more.files > j.opts.maxFiles
    else st.fileCount + more.files >= j.opts.maxFiles
  }

  /** What the builder does agrees with what it should build: the same value or the same error, except that
      the file limit can stop it; `more` is what there is to add, and `keeps` says that no file is left out. */
  ghost predicate Agree<T>(
    j: Job, st: Built, b: Result<(Built, T), BuildError>, t: Result<T, BuildError>, more: Totals, keeps: bool)
  {
    match b
    case Ok((next, value)) => t == Ok(value) && Adds(j, st, next, more)
    case Err(error) => t == Err(error) || (error == TooManyFiles && (t.Ok? ==> NoRoom(j, st, more, keeps)))
  }

  ghost function HashOf(j: Job, t: Result<seq<Entry>, BuildError>): Result<Hash, BuildError> {
    if t.Ok? then Ok(TreeHash(j, t.value)) else Err(t.error)
  }

  /** A directory itself and what there is below it. */
  function WithSelf(below: seq<Visit>): Totals {
    Plus(Totals(0, 1, 0, 0), Count(below))
  }

  lemma {:induction false} DirMeans(j: Job, vis: set<string>, st: Built, abs: string, rel: string)
    requires Sane(j) && vis <= j.fs.realPaths
    ensures Agree(j, st, BuildDir(j, vis, st, abs, rel), HashOf(j, Entries(j, vis, abs, rel)),
                  WithSelf(Listing(j, vis, abs, rel)), KeepsDir(j, vis, abs, rel))
    ensures var b, t := BuildDir(j, vis, st, abs, rel), Entries(j, vis, abs, rel);
            t.Err? && !Fatal(t.error) ==> b.Err? && b.error == t.error
    decreases |j.fs.realPaths - vis|, Room(j, abs), 3, 0
  {
    hide *;
    var listing := j.fs.readDir(abs);
    DirOf(j, vis, st, abs, rel);
    EntriesOf(j, vis, abs, rel);
    var b, es := BuildDir(j, vis, st, abs, rel), Entries(j, vis, abs, rel);
    if Revisits(j, vis, abs) || listing.None? {
      SameError(j, st, b, es, WithSelf(Listing(j, vis, abs, rel)), KeepsDir(j, vis, abs, rel));
    } else {
      var now := Stack(j, vis, abs);
      Entering(j, vis, abs);
      AllMeans(j, now, st, [], abs, rel, listing.value);
      KeepsOf(j, vis, abs, rel);
      var kept := KeptEntries(j, now, abs, rel, listing.value);
      if kept.Ok? {
        CountSorted(j, now, abs, rel, kept.value);
      }
      RestIs(j, now, abs, rel, kept);
      Finish(j, st, BuildAll(j, now, st, [], abs, rel, listing.value), kept, b, es,
             Rest(j, now, abs, rel, kept), Listing(j, vis, abs, rel), KeepsDir(j, vis, abs, rel));
    }
  }

  lemma KeepsOf(j: Job, vis: set<string>, abs: string, rel: string)
    requires Sane(j) && vis <= j.fs.realPaths && !Revisits(j, vis, abs) && j.fs.readDir(abs).Some?
    ensures Stack(j, vis, abs) <= j.fs.realPaths
    ensures KeepsDir(j, vis, abs, rel) == KeepsAll(j, Stack(j, vis, abs), abs, rel, j.fs.readDir(abs).value)
  {
    Entering(j, vis, abs);
    hide KeepsAll, KeepsChild, Sane;
  }

  lemma SameError(
    j: Job, st: Built, b: Result<(Built, Hash), BuildError>, t: Result<seq<Entry>, BuildError>, more: Totals, keeps: bool)
    requires b.Err? && t.Err? && b.error == t.error
    ensures Agree(j, st, b, HashOf(j, t), more, keeps)
  {
  }

  /** The step from the listed names to the stored tree. */
  lemma Finish(
    j: Job, st: Built, all: Result<(Built, seq<Entry>), BuildError>, kept: Result<seq<Entry>, BuildError>,
    b: Result<(Built, Hash), BuildError>, t: Result<seq<Entry>, BuildError>, more: Totals, listing: seq<Visit>, keeps: bool)
    requires Agree(j, st, all, After([], kept), more, keeps)
    requires if kept.Ok? then t == Ok(SortByName(kept.value)) && more == Count(listing) else t == kept
    requires if all.Err? then b == Err(all.error)
             else b == Ok((AddTree(j, all.value.0, SortByName(all.value.1)), TreeHash(j, SortByName(all.value.1))))
    ensures Agree(j, st, b, HashOf(j, t), WithSelf(listing), keeps)
  {
    hide SortByName, Count;
    assert kept.Ok? ==> [] + kept.value == kept.value;
  }

  lemma EntriesOf(j: Job, vis: set<string>, abs: string, rel: string)
    requires Sane(j) && vis <= j.fs.realPaths
    ensures var listing, es := j.fs.readDir(abs), Entries(j, vis, abs, rel);
            if Revisits(j, vis, abs) then es == Err(CyclicLink)
            else if listing.None? then es == Err(Unreadable)
            else
              && Stack(j, vis, abs) <= j.fs.realPaths
              && var kept := KeptEntries(j, Stack(j, vis, abs), abs, rel, listing.value);
              if kept.Err? then es == Err(kept.error) && Fatal(kept.error)
              else
                && es == Ok(SortByName(kept.value))
                && Listing(j, vis, abs, rel) == Below(j, Stack(j, vis, abs), abs, rel, es.value)
  {
    if !Revisits(j, vis, abs) && j.fs.readDir(abs).Some? {
      Entering(j, vis, abs);
    }
    hide Sane, Stack, Child, Block, Room, Span;
  }

  lemma KeptNext(j: Job, vis: set<string>, abs: string, rel: string, des: seq<DirEnt>)
    requires Sane(j) && vis <= j.fs.realPaths && des != []
    ensures var kept, first := KeptEntries(j, vis, abs, rel, des), Child(j, vis, abs, rel, des[0]);
            var rest := KeptEntries(j, vis, abs, rel, des[1..]);
            if first.Err? && Fatal(first.error) then kept == Err(first.error)
            else if rest.Err? then kept == rest
            else kept == Ok(if first.Ok? then [first.value] + rest.value else rest.value)
  {
  }

  lemma KeepsNext(j: Job, vis: set<string>, abs: string, rel: string, des: seq<DirEnt>)
    requires Sane(j) && vis <= j.fs.realPaths && des != []
    ensures KeepsAll(j, vis, abs, rel, des) == (KeepsChild(j, vis, abs, rel, des[0]) && KeepsAll(j, vis, abs, rel, des[1..]))
  {
  }

  ghost function After(es: seq<Entry>, t: Result<seq<Entry>, BuildError>): Result<seq<Entry>, BuildError> {
    if t.Ok? then Ok(es + t.value) else t
  }

  ghost function Rest(j: Job, vis: set<string>, abs: string, rel: string, t: Result<seq<Entry>, BuildError>): Totals
    requires Sane(j) && vis <= j.fs.realPaths
  {
    if t.Ok? then Count(Below(j, vis, abs, rel, t.value)) else ZERO
  }

  /** The builder's step over one name and over the rest, put together. */
  lemma Combine(
    j: Job, st: Built, es: seq<Entry>, child: Result<(Built, Entry), BuildError>, t: Result<Entry, BuildError>, mine: Totals,
    all: Result<(Built, seq<Entry>), BuildError>, rest: Result<seq<Entry>, BuildError>, later: Totals,
    kept: Result<seq<Entry>, BuildError>, more: Totals, childKeeps: bool, restKeeps: bool)
    requires Agree(j, st, child, t, mine, childKeeps) && FullEarly(j, st, child, t, childKeeps)
    requires child.Ok? ==> Agree(j, child.value.0, all, After(es + [child.value.1], rest), later, restKeeps)
    requires child.Err? && Fatal(child.error) ==> all.Err? && all.error == child.error
    requires child.Err? && !Fatal(child.error) ==> Agree(j, st, all, After(es, rest), later, restKeeps)
    requires if t.Err? && Fatal(t.error) then kept == Err(t.error)
             else if rest.Err? then kept == rest
             else kept == Ok(if t.Ok? then [t.value] + rest.value else rest.value)
    requires kept.Ok? ==> more == if t.Ok? then Plus(mine, later) else later
    ensures Agree(j, st, all, After(es, kept), more, childKeeps && restKeeps)
  {
    if t.Ok? && rest.Ok? {
      ConcatAssociative(es, [t.value], rest.value);
    }
  }

  /** The builder may stop at the limit before it looks at a file that it would leave out. */
  ghost predicate FullEarly(
    j: Job, st: Built, b: Result<(Built, Entry), BuildError>, t: Result<Entry, BuildError>, keeps: bool)
  {
    b.Err? && b.error == TooManyFiles && t.Err? ==> Fatal(t.error) || (!keeps && NoRoom(j, st, ZERO, false))
  }

  lemma RestNext(j: Job, vis: set<string>, abs: string, rel: string, t: Entry, rest: seq<Entry>)
    requires Sane(j) && vis <= j.fs.realPaths
    ensures Rest(j, vis, abs, rel, Ok([t] + rest)) == Plus(Mine(j, vis, abs, rel, Ok(t)), Rest(j, vis, abs, rel, Ok(rest)))
  {
    BelowFirst(j, vis, abs, rel, t, rest);
  }

  lemma AllMeansNone(j: Job, vis: set<string>, st: Built, es: seq<Entry>, abs: string, rel: string)
    requires Sane(j) && vis <= j.fs.realPaths
    ensures var t := KeptEntries(j, vis, abs, rel, []);
            Agree(j, st, BuildAll(j, vis, st, es, abs, rel, []), After(es, t), Rest(j, vis, abs, rel, t), KeepsAll(j, vis, abs, rel, []))
  {
    assert es + [] == es;
    assert Below(j, vis, abs, rel, []) == [];
  }

  lemma RestIs(j: Job, vis: set<string>, abs: string, rel: string, t: Result<seq<Entry>, BuildError>)
    requires Sane(j) && vis <= j.fs.realPaths
    ensures t.Ok? ==> Rest(j, vis, abs, rel, t) == Count(Below(j, vis, abs, rel, t.value))
  {
  }

  lemma {:induction false} AllMeans(
    j: Job, vis: set<string>, st: Built, es: seq<Entry>, abs: string, rel: string, des: seq<DirEnt>)
    requires Sane(j) && vis <= j.fs.realPaths
    ensures var t := KeptEntries(j, vis, abs, rel, des);
            Agree(j, st, BuildAll(j, vis, st, es, abs, rel, des), After(es, t), Rest(j, vis, abs, rel, t), KeepsAll(j, vis, abs, rel, des))
    decreases |j.fs.realPaths - vis|, Span(j, abs), 2, |des|
  {
    hide *;
    if des == [] {
      AllMeansNone(j, vis, st, es, abs, rel);
    } else {
      assert des[0..] == des;
      AllNext(j, vis, st, es, abs, rel, des, 0);
      KeptNext(j, vis, abs, rel, des);
      KeepsNext(j, vis, abs, rel, des);
      ChildMeans(j, vis, st, abs, rel, des[0]);
      var child, t := BuildChild(j, vis, st, abs, rel, des[0]), Child(j, vis, abs, rel, des[0]);
      var rest, kept := KeptEntries(j, vis, abs, rel, des[1..]), KeptEntries(j, vis, abs, rel, des);
      if child.Ok? {
        AllMeans(j, vis, child.value.0, es + [child.value.1], abs, rel, des[1..]);
      } else if !Fatal(child.error) {
        AllMeans(j, vis, st, es, abs, rel, des[1..]);
      }
      if t.Ok? && rest.Ok? {
        RestNext(j, vis, abs, rel, t.value, rest.value);
      }
      Combine(j, st, es, child, t, Mine(j, vis, abs, rel, t), BuildAll(j, vis, st, es, abs, rel, des),
              rest, Rest(j, vis, abs, rel, rest), kept, Rest(j, vis, abs, rel, kept),
              KeepsChild(j, vis, abs, rel, des[0]), KeepsAll(j, vis, abs, rel, des[1..]));
    }
  }

  ghost function Mine(j: Job, vis: set<string>, abs: string, rel: string, t: Result<Entry, BuildError>): Totals
    requires Sane(j) && vis <= j.fs.realPaths
  {
    if t.Ok? then Count(Block(j, vis, abs, rel, t.value)) else ZERO
  }

  lemma {:induction false} ChildMeans(j: Job, vis: set<string>, st: Built, abs: string, rel: string, de: DirEnt)
    requires Sane(j) && vis <= j.fs.realPaths
    ensures var b, t := BuildChild(j, vis, st, abs, rel, de), Child(j, vis, abs, rel, de);
            var keeps := KeepsChild(j, vis, abs, rel, de);
            Agree(j, st, b, t, Mine(j, vis, abs, rel, t), keeps) && FullEarly(j, st, b, t, keeps)
    decreases |j.fs.realPaths - vis|, Span(j, abs), 1, 0
  {
    hide *;
    if LeadsDown(j, abs, rel, de) {
      ChildRoom(j, abs, de.name);
      DirMeans(j, vis, st, JoinClean(abs, de.name), ChildPath(rel, de.name));
      DownMeans(j, vis, st, abs, rel, de);
    } else {
      LeafMeans(j, vis, st, abs, rel, de);
    }
  }

  lemma LeafMeans(j: Job, vis: set<string>, st: Built, abs: string, rel: string, de: DirEnt)
    requires Sane(j) && vis <= j.fs.realPaths && !LeadsDown(j, abs, rel, de)
    ensures var b, t := BuildChild(j, vis, st, abs, rel, de), Child(j, vis, abs, rel, de);
            var keeps := KeepsChild(j, vis, abs, rel, de);
            Agree(j, st, b, t, Mine(j, vis, abs, rel, t), keeps) && FullEarly(j, st, b, t, keeps)
  {
    LeafBuilt(j, vis, st, abs, rel, de);
    if LeavesOut(j, abs, rel, de) {
      KeptLeaf(j, vis, abs, rel, de);
    }
    var t := Child(j, vis, abs, rel, de);
    if t.Ok? {
      BlockCount(j, vis, abs, rel, t.value);
    }
    hide JoinClean, ChildPath, Sane, BuildChild, Child, Listing, Block, Count, KeepsChild, LeavesOut, GoodName;
  }

  lemma KeptLeaf(j: Job, vis: set<string>, abs: string, rel: string, de: DirEnt)
    requires Sane(j) && vis <= j.fs.realPaths && LeavesOut(j, abs, rel, de)
    ensures !KeepsChild(j, vis, abs, rel, de)
  {
    hide LeavesOut, LeadsDown, KeepsDir, Sane, JoinClean, ChildPath;
  }

  /** A link or a regular file: one entry, or none for its own reason, or none because the limit is reached. */
  lemma LeafBuilt(j: Job, vis: set<string>, st: Built, abs: string, rel: string, de: DirEnt)
    requires Sane(j) && vis <= j.fs.realPaths && !LeadsDown(j, abs, rel, de)
    ensures var b, t := BuildChild(j, vis, st, abs, rel, de), Child(j, vis, abs, rel, de);
            && (t.Ok? ==> t.value.kind != DIRECTORY)
            && if b.Ok? then t == Ok(b.value.1) && Adds(j, st, b.value.0, One(t.value))
               else if b.error != TooManyFiles then t == Err(b.error)
               else st.fileCount >= j.opts.maxFiles && if t.Ok? then One(t.value).files == 1 else LeavesOut(j, abs, rel, de)
  {
    hide JoinClean, ChildPath, Sane, BuildDir, Entries, GoodName, Look, Room, Span;
  }

  /** A listed directory: what is below it, with one entry more. */
  lemma DownMeans(j: Job, vis: set<string>, st: Built, abs: string, rel: string, de: DirEnt)
    requires Sane(j) && vis <= j.fs.realPaths && LeadsDown(j, abs, rel, de)
    requires var path, under := JoinClean(abs, de.name), ChildPath(rel, de.name);
             var b, t := BuildDir(j, vis, st, path, under), Entries(j, vis, path, under);
             && Agree(j, st, b, HashOf(j, t), WithSelf(Listing(j, vis, path, under)), KeepsDir(j, vis, path, under))
             && (t.Err? && !Fatal(t.error) ==> b.Err? && b.error == t.error)
    ensures var b, t := BuildChild(j, vis, st, abs, rel, de), Child(j, vis, abs, rel, de);
            var keeps := KeepsChild(j, vis, abs, rel, de);
            Agree(j, st, b, t, Mine(j, vis, abs, rel, t), keeps) && FullEarly(j, st, b, t, keeps)
  {
    hide *;
    DownIs(j, vis, st, abs, rel, de);
    var path, under := JoinClean(abs, de.name), ChildPath(rel, de.name);
    var t := Child(j, vis, abs, rel, de);
    if t.Ok? {
      BlockCount(j, vis, abs, rel, t.value);
      MineIs(j, vis, abs, rel, t.value);
    }
    DownAgrees(j, st, BuildDir(j, vis, st, path, under), Entries(j, vis, path, under), BuildChild(j, vis, st, abs, rel, de), t,
               WithSelf(Listing(j, vis, path, under)), Mine(j, vis, abs, rel, t), KeepsDir(j, vis, path, under));
  }

  lemma MineIs(j: Job, vis: set<string>, abs: string, rel: string, e: Entry)
    requires Sane(j) && vis <= j.fs.realPaths
    ensures Mine(j, vis, abs, rel, Ok(e)) == Count(Block(j, vis, abs, rel, e))
  {
  }

  lemma DownIs(j: Job, vis: set<string>, st: Built, abs: string, rel: string, de: DirEnt)
    requires Sane(j) && vis <= j.fs.realPaths && LeadsDown(j, abs, rel, de)
    ensures var path, under := JoinClean(abs, de.name), ChildPath(rel, de.name);
            var dir, es := BuildDir(j, vis, st, path, under), Entries(j, vis, path, under);
            var b, t := BuildChild(j, vis, st, abs, rel, de), Child(j, vis, abs, rel, de);
            var mode := Look(j, abs, rel, de).value.mode;
            && KeepsChild(j, vis, abs, rel, de) == KeepsDir(j, vis, path, under)
            && (if dir.Ok? then b == Ok((dir.value.0, Entry(de.name, DIRECTORY, mode, 0, dir.value.1)))
                else b.Err? && b.error == dir.error)
            && (if es.Ok? then t == Ok(Entry(de.name, DIRECTORY, mode, 0, TreeHash(j, es.value)))
                else t.Err? && t.error == es.error)
  {
    hide JoinClean, ChildPath, Sane, BuildDir, Entries, KeepsDir, Room, Span, GoodName, Look;
  }

  lemma DownAgrees(
    j: Job, st: Built, dir: Result<(Built, Hash), BuildError>, es: Result<seq<Entry>, BuildError>,
    b: Result<(Built, Entry), BuildError>, t: Result<Entry, BuildError>, more: Totals, mine: Totals, keeps: bool)
    requires Agree(j, st, dir, HashOf(j, es), more, keeps) && (t.Ok? ==> mine == more)
    requires es.Err? && !Fatal(es.error) ==> dir.Err? && dir.error == es.error
    requires es.Ok? == t.Ok? && (t.Err? ==> t.error == es.error) && dir.Ok? == b.Ok? && (b.Err? ==> b.error == dir.error)
    requires b.Ok? ==> b.value.0 == dir.value.0
    requires b.Ok? && t.Ok? ==> t.value == b.value.1.(hash := TreeHash(j, es.value)) && b.value.1.hash == dir.value.1
    ensures Agree(j, st, b, t, mine, keeps) && FullEarly(j, st, b, t, keeps)
  {
    hide Adds, NoRoom, TreeHash;
  }

  lemma BlockCount(j: Job, vis: set<string>, abs: string, rel: string, e: Entry)
    requires Sane(j) && vis <= j.fs.realPaths && GoodName(e.name)
    ensures var below := Listing(j, vis, JoinClean(abs, e.name), ChildPath(rel, e.name));
            Count(Block(j, vis, abs, rel, e)) == if e.kind == DIRECTORY then WithSelf(below) else One(e)
  {
    hide *;
    BlockIs(j, vis, abs, rel, e);
    CountHead(Visit(ChildPath(rel, e.name), e), Listing(j, vis, JoinClean(abs, e.name), ChildPath(rel, e.name)));
  }

  lemma BlockIs(j: Job, vis: set<string>, abs: string, rel: string, e: Entry)
    requires Sane(j) && vis <= j.fs.realPaths && GoodName(e.name)
    ensures var v, below := Visit(ChildPath(rel, e.name), e), Listing(j, vis, JoinClean(abs, e.name), ChildPath(rel, e.name));
            Block(j, vis, abs, rel, e) == if e.kind == DIRECTORY then [v] + below else [v]
  {
    hide JoinClean, ChildPath, Sane, Listing, GoodName;
  }

  lemma CountHead(v: Visit, rest: seq<Visit>)
    ensures v.entry.kind == DIRECTORY ==> Count([v] + rest) == WithSelf(rest)
    ensures Count([v]) == One(v.entry)
  {
    hide Count, Plus;
    CountNone();
    CountCons(v, rest);
    CountCons(v, []);
    assert [v] + [] == [v];
    PlusRules(One(v.entry), ZERO, ZERO);
  }
}

/** Cycles of followed links end a capture: exactly when, and on which file systems. */
module CaptureCycles {
  import opened Basics
  import opened Paths
  import opened Snapshots
  import opened Captures
  import opened CaptureMeaning
  import opened CaptureOrder

  /** Going down from a directory, each step to a listed directory that is looked at. */
  ghost predicate Descends(j: Job, abs: string, rel: string, steps: seq<DirEnt>)
    decreases |steps|
  {
    steps != [] ==> StepsDown(j, abs, rel, steps[0])
                    && Descends(j, JoinClean(abs, steps[0].name), ChildPath(rel, steps[0].name), steps[1..])
  }

  ghost predicate StepsDown(j: Job, abs: string, rel: string, de: DirEnt) {
    j.fs.readDir(abs).Some? && de in j.fs.readDir(abs).value && LeadsDown(j, abs, rel, de)
  }

  /** The path reached by the steps. */
  function PathAt(abs: string, steps: seq<DirEnt>): string
    decreases |steps|
  {
    if steps == [] then abs else PathAt(JoinClean(abs, steps[0].name), steps[1..])
  }

  ghost predicate SamePlace(j: Job, p: string, q: string) {
    j.fs.resolve(p).Some? && j.fs.resolve(p) == j.fs.resolve(q)
  }

  /** The steps lead back to a place passed on the way. */
  ghost predicate LeadsBack(j: Job, abs: string, rel: string, steps: seq<DirEnt>, i: nat) {
    i < |steps| && Descends(j, abs, rel, steps) && SamePlace(j, PathAt(abs, steps[..i]), PathAt(abs, steps))
  }

  /** The steps lead to a place that is being captured, through places that are not. */
  ghost predicate Loops(j: Job, vis: set<string>, abs: string, rel: string, steps: seq<DirEnt>)
    decreases |steps|
  {
    if steps == [] then Revisits(j, vis, abs)
    else
      && !Revisits(j, vis, abs) && StepsDown(j, abs, rel, steps[0])
      && Loops(j, Stack(j, vis, abs), JoinClean(abs, steps[0].name), ChildPath(rel, steps[0].name), steps[1..])
  }

  lemma ChildCyclic(j: Job, vis: set<string>, abs: string, rel: string, de: DirEnt)
    requires Sane(j) && vis <= j.fs.realPaths
    ensures Child(j, vis, abs, rel, de) == Err(CyclicLink) <==>
              LeadsDown(j, abs, rel, de) && Entries(j, vis, JoinClean(abs, de.name), ChildPath(rel, de.name)) == Err(CyclicLink)
  {
    hide JoinClean, ChildPath, Sane, Entries, GoodName, Room, Span;
  }

  lemma {:induction false} LoopFound(j: Job, vis: set<string>, abs: string, rel: string) returns (steps: seq<DirEnt>)
    requires Sane(j) && vis <= j.fs.realPaths && Entries(j, vis, abs, rel) == Err(CyclicLink)
    ensures Loops(j, vis, abs, rel, steps)
    decreases |j.fs.realPaths - vis|, Room(j, abs)
  {
    hide Entries, Child, Revisits, Stack, JoinClean, ChildPath, Sane, LeadsDown, Room, Span, GoodName;
    CyclicStep(j, vis, abs, rel);
    if Revisits(j, vis, abs) {
      steps := [];
    } else {
      var now := Stack(j, vis, abs);
      var de :| de in j.fs.readDir(abs).value && Child(j, now, abs, rel, de) == Err(CyclicLink);
      ChildCyclic(j, now, abs, rel, de);
      Entering(j, vis, abs);
      ChildRoom(j, abs, de.name);
      var below := LoopFound(j, now, JoinClean(abs, de.name), ChildPath(rel, de.name));
      steps := [de] + below;
      assert steps[1..] == below;
    }
  }

  lemma {:induction false} LoopStops(j: Job, vis: set<string>, abs: string, rel: string, steps: seq<DirEnt>)
    requires Sane(j) && vis <= j.fs.realPaths && Loops(j, vis, abs, rel, steps)
    ensures Entries(j, vis, abs, rel) == Err(CyclicLink)
    decreases |steps|
  {
    hide Entries, Child, Revisits, Stack, JoinClean, ChildPath, Sane, LeadsDown, Room, Span, GoodName;
    CyclicStep(j, vis, abs, rel);
    if steps != [] {
      var now := Stack(j, vis, abs);
      Entering(j, vis, abs);
      LoopStops(j, now, JoinClean(abs, steps[0].name), ChildPath(rel, steps[0].name), steps[1..]);
      ChildCyclic(j, now, abs, rel, steps[0]);
    }
  }

  /** A directory fails as cyclic iff from it a chain of listed directories leads, through places that are
      not being captured, to one that is. */
  lemma CyclicIff(j: Job, vis: set<string>, abs: string, rel: string)
    requires Sane(j) && vis <= j.fs.realPaths
    ensures Entries(j, vis, abs, rel) == Err(CyclicLink) <==> exists steps :: Loops(j, vis, abs, rel, steps)
  {
    hide *;
    if Entries(j, vis, abs, rel) == Err(CyclicLink) {
      var steps := LoopFound(j, vis, abs, rel);
    }
    if exists steps :: Loops(j, vis, abs, rel, steps) {
      var steps :| Loops(j, vis, abs, rel, steps);
      LoopStops(j, vis, abs, rel, steps);
    }
  }

  // ---- From the root: a chain that leads back to itself ----

  /** The steps end at a place that is being captured or has been passed on the way. */
  ghost predicate Ends(j: Job, vis: set<string>, abs: string, steps: seq<DirEnt>) {
    Revisits(j, vis, PathAt(abs, steps)) || exists i: nat :: BackTo(j, abs, steps, i)
  }

  ghost predicate BackTo(j: Job, abs: string, steps: seq<DirEnt>, i: nat) {
    i < |steps| && SamePlace(j, PathAt(abs, steps[..i]), PathAt(abs, steps))
  }

  /** Moving on by one step: what was passed is on the stack. */
  lemma EndsNext(j: Job, vis: set<string>, abs: string, steps: seq<DirEnt>)
    requires steps != []
    ensures Ends(j, vis, abs, steps) <==> Ends(j, Stack(j, vis, abs), JoinClean(abs, steps[0].name), steps[1..])
  {
    var child, rest, now := JoinClean(abs, steps[0].name), steps[1..], Stack(j, vis, abs);
    hide JoinClean;
    forall i: nat | i < |rest| ensures BackTo(j, child, rest, i) == BackTo(j, abs, steps, i + 1) {
      assert steps[..i + 1][1..] == rest[..i];
    }
    assert steps[..0] == [] && PathAt(abs, []) == abs && PathAt(abs, steps) == PathAt(child, rest);
    assert Revisits(j, now, PathAt(child, rest)) <==> Revisits(j, vis, PathAt(abs, steps)) || BackTo(j, abs, steps, 0);
    hide Revisits, Stack, PathAt;
    if Ends(j, vis, abs, steps) && !Revisits(j, now, PathAt(child, rest)) {
      var i: nat :| BackTo(j, abs, steps, i);
      assert BackTo(j, child, rest, i - 1);
    }
    if Ends(j, now, child, rest) && !Revisits(j, now, PathAt(child, rest)) {
      var i: nat :| BackTo(j, child, rest, i);
      assert BackTo(j, abs, steps, i + 1);
    }
  }

  lemma NoSteps(j: Job, vis: set<string>, abs: string)
    ensures Ends(j, vis, abs, []) == Revisits(j, vis, abs)
  {
  }

  lemma {:induction false} LoopEnds(j: Job, vis: set<string>, abs: string, rel: string, steps: seq<DirEnt>)
    requires Loops(j, vis, abs, rel, steps)
    ensures Descends(j, abs, rel, steps) && Ends(j, vis, abs, steps)
    decreases |steps|
  {
    hide Ends, JoinClean, ChildPath, StepsDown, Revisits, Stack;
    NoSteps(j, vis, abs);
    if steps != [] {
      LoopEnds(j, Stack(j, vis, abs), JoinClean(abs, steps[0].name), ChildPath(rel, steps[0].name), steps[1..]);
      EndsNext(j, vis, abs, steps);
    }
  }

  /** Of steps that come back, the first ones that do make a loop. */
  lemma {:induction false} FirstReturn(j: Job, vis: set<string>, abs: string, rel: string, steps: seq<DirEnt>)
    returns (first: seq<DirEnt>)
    requires Descends(j, abs, rel, steps) && Ends(j, vis, abs, steps)
    ensures Loops(j, vis, abs, rel, first)
    decreases |steps|
  {
    hide Ends, JoinClean, ChildPath, StepsDown, Revisits, Stack;
    NoSteps(j, vis, abs);
    if Revisits(j, vis, abs) {
      first := [];
    } else {
      EndsNext(j, vis, abs, steps);
      var rest := FirstReturn(j, Stack(j, vis, abs), JoinClean(abs, steps[0].name), ChildPath(rel, steps[0].name), steps[1..]);
      first := [steps[0]] + rest;
      assert first[1..] == rest;
    }
  }

  /** The tree of a root is cyclic iff some chain of listed directories below it leads back to the place of a
      directory that it has passed, the root included. */
  lemma RootCyclicIff(j: Job, root: string)
    requires Sane(j)
    ensures Entries(j, {}, root, "") == Err(CyclicLink) <==> exists steps, i :: LeadsBack(j, root, "", steps, i)
  {
    CyclicIff(j, {}, root, "");
    if exists steps :: Loops(j, {}, root, "", steps) {
      var steps :| Loops(j, {}, root, "", steps);
      LoopEnds(j, {}, root, "", steps);
      var i: nat :| BackTo(j, root, steps, i);
      assert LeadsBack(j, root, "", steps, i);
    }
    if exists steps, i :: LeadsBack(j, root, "", steps, i) {
      var steps, i :| LeadsBack(j, root, "", steps, i);
      assert BackTo(j, root, steps, i);
      var first := FirstReturn(j, {}, root, "", steps);
    }
  }

  /** A capture that fails as cyclic has such a chain; and where there is one the capture fails, as cyclic
      or before that at the file limit: nothing is skipped. */
  lemma CycleEndsCapture(j: Job, root: string)
    requires Sane(j)
    ensures var b := BuildDir(j, {}, EMPTY, root, "");
            && (b == Err(CyclicLink) ==> exists steps, i :: LeadsBack(j, root, "", steps, i))
            && ((exists steps, i :: LeadsBack(j, root, "", steps, i)) ==>
                  b.Err? && (b.error == CyclicLink || b.error == TooManyFiles))
  {
    RootCyclicIff(j, root);
    DirMeans(j, {}, EMPTY, root, "");
    hide BuildDir, Entries, Listing, LeadsBack, Sane, KeepsDir;
  }

  // ---- A file system that loops ----

  const SELF: DirEnt := DirEnt("a", false)

  /** A directory with one link, which leads back to the directory: a directory when it is followed. */
  function SelfLink(c: Codec, opts: Options): Job {
    Job(c,
        FileSystem({"r"}, 0, (p: string) => Some("r"), (p: string) => Some([SELF]),
                   (p: string) => Some(Info(false, true, 0, 0)), (p: string) => Some(Info(true, false, 0, 0)),
                   (p: string) => None, (p: string) => None),
        opts)
  }

  /** Following the link ends the capture, although nothing else is in the way. */
  lemma SelfLinkStops(c: Codec, opts: Options)
    requires forall es :: c.decode(c.encode(es)) == Some(es)
    requires opts.followSymlinks && !opts.exclude(ChildPath("", "a"), false)
    ensures var j := SelfLink(c, opts);
            Sane(j) && LeadsBack(j, "r", "", [SELF], 0) && BuildDir(j, {}, EMPTY, "r", "") == Err(CyclicLink)
  {
    var j := SelfLink(c, opts);
    assert Look(j, "r", "", SELF) == Ok(Info(false, true, 0, 0));
    assert [SELF][..0] == [] && [SELF][1..] == [];
    SelfLinkFails(c, opts);
    hide JoinClean, ChildPath, Look, BuildDir;
    var child := JoinClean("r", "a");
    assert Descends(j, child, ChildPath("", "a"), []);
    assert PathAt(child, []) == child && PathAt("r", [SELF]) == child && PathAt("r", []) == "r";
  }

  lemma SelfLinkFails(c: Codec, opts: Options)
    requires Sane(SelfLink(c, opts)) && opts.followSymlinks && !opts.exclude(ChildPath("", "a"), false)
    ensures BuildDir(SelfLink(c, opts), {}, EMPTY, "r", "") == Err(CyclicLink)
  {
    var j, child, under := SelfLink(c, opts), JoinClean("r", "a"), ChildPath("", "a");
    var now := Stack(j, {}, "r");
    assert Look(j, "r", "", SELF) == Ok(Info(false, true, 0, 0));
    assert [SELF][0..] == [SELF] && now == {"r"};
    assert Revisits(j, now, child);
    DirOf(j, {}, EMPTY, "r", "");
    DirOf(j, now, EMPTY, child, under);
    assert BuildChild(j, now, EMPTY, "r", "", SELF) == Err(CyclicLink) by { hide JoinClean, ChildPath, Look, BuildDir; }
    hide JoinClean, ChildPath, Look, BuildDir, BuildAll, BuildChild;
    AllNext(j, now, EMPTY, [], "r", "", [SELF], 0);
  }
}

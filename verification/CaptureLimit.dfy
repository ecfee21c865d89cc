/** The file limit and the order of listings: exactly which captures succeed in every order. */
module CaptureLimit {
  import opened Basics
  import opened Paths
  import opened Snapshots
  import opened NameOrder
  import opened Captures
  import opened CaptureMeaning
  import opened CaptureOrder

  // ---- A path to a regular file that is left out ----

  /** Each step is listed where it is taken. */
  ghost predicate StepsListed(j: Job, abs: string, steps: seq<DirEnt>)
    decreases |steps|
  {
    steps != [] ==>
      j.fs.readDir(abs).Some? && steps[0] in j.fs.readDir(abs).value && StepsListed(j, JoinClean(abs, steps[0].name), steps[1..])
  }

  /** Directories, and at the end a regular file that is left out. */
  ghost predicate EndsLeftOut(j: Job, abs: string, rel: string, steps: seq<DirEnt>)
    decreases |steps|
  {
    && steps != []
    && if |steps| == 1 then LeavesOut(j, abs, rel, steps[0])
       else LeadsDown(j, abs, rel, steps[0])
            && EndsLeftOut(j, JoinClean(abs, steps[0].name), ChildPath(rel, steps[0].name), steps[1..])
  }

  lemma {:induction false} FindLeftOut(j: Job, vis: set<string>, abs: string, rel: string) returns (steps: seq<DirEnt>)
    requires Sane(j) && vis <= j.fs.realPaths && !KeepsDir(j, vis, abs, rel)
    ensures StepsListed(j, abs, steps) && EndsLeftOut(j, abs, rel, steps)
    decreases |j.fs.realPaths - vis|, Room(j, abs)
  {
    hide KeepsDir, KeepsAll, KeepsChild, JoinClean, ChildPath, Sane, LeavesOut, LeadsDown, Room, Span, Stack, Revisits, GoodName;
    KeepsDirOf(j, vis, abs, rel);
    var now, listing := Stack(j, vis, abs), j.fs.readDir(abs).value;
    KeepsAllIs(j, now, abs, rel, listing);
    var de :| de in listing && !KeepsChild(j, now, abs, rel, de);
    KeepsChildIs(j, now, abs, rel, de);
    if LeavesOut(j, abs, rel, de) {
      steps := [de];
    } else {
      Entering(j, vis, abs);
      ChildRoom(j, abs, de.name);
      var below := FindLeftOut(j, now, JoinClean(abs, de.name), ChildPath(rel, de.name));
      steps := [de] + below;
      assert steps[1..] == below;
    }
  }

  lemma KeepsChildIs(j: Job, vis: set<string>, abs: string, rel: string, de: DirEnt)
    requires Sane(j) && vis <= j.fs.realPaths
    ensures KeepsChild(j, vis, abs, rel, de)
            == (!LeavesOut(j, abs, rel, de)
                && (LeadsDown(j, abs, rel, de) ==> KeepsDir(j, vis, JoinClean(abs, de.name), ChildPath(rel, de.name))))
  {
    hide KeepsDir, JoinClean, ChildPath, Sane, LeavesOut, LeadsDown, Room, Span, GoodName;
  }

  // ---- When the left-out file comes last, success means that the limit is not reached ----

  ghost predicate EndsWith(des: Option<seq<DirEnt>>, de: DirEnt) {
    des.Some? && des.value != [] && des.value[|des.value| - 1] == de
  }

  /** Each listing on the way ends with the step taken from it. */
  ghost predicate StepsLast(j: Job, abs: string, steps: seq<DirEnt>)
    decreases |steps|
  {
    steps != [] ==> EndsWith(j.fs.readDir(abs), steps[0]) && StepsLast(j, JoinClean(abs, steps[0].name), steps[1..])
  }

  lemma {:induction false} BuildAllConcat(
    j: Job, vis: set<string>, st: Built, es: seq<Entry>, abs: string, rel: string, a: seq<DirEnt>, b: seq<DirEnt>)
    requires Sane(j) && vis <= j.fs.realPaths
    ensures var first := BuildAll(j, vis, st, es, abs, rel, a);
            BuildAll(j, vis, st, es, abs, rel, a + b)
            == if first.Err? then first else BuildAll(j, vis, first.value.0, first.value.1, abs, rel, b)
    decreases |a|
  {
    hide *;
    if a == [] {
      assert a + b == b;
      AllDone(j, vis, st, es, abs, rel);
    } else {
      assert a[0..] == a && (a + b)[0..] == a + b && (a + b)[1..] == a[1..] + b && (a + b)[0] == a[0];
      AllNext(j, vis, st, es, abs, rel, a, 0);
      AllNext(j, vis, st, es, abs, rel, a + b, 0);
      var child := BuildChild(j, vis, st, abs, rel, a[0]);
      if child.Ok? {
        BuildAllConcat(j, vis, child.value.0, es + [child.value.1], abs, rel, a[1..], b);
      } else if !Fatal(child.error) {
        BuildAllConcat(j, vis, st, es, abs, rel, a[1..], b);
      } else {
        assert BuildAll(j, vis, st, es, abs, rel, a) == Err(child.error) == BuildAll(j, vis, st, es, abs, rel, a + b);
      }
    }
  }

  lemma BuildAllOne(j: Job, vis: set<string>, st: Built, es: seq<Entry>, abs: string, rel: string, de: DirEnt)
    requires Sane(j) && vis <= j.fs.realPaths
    ensures var child := BuildChild(j, vis, st, abs, rel, de);
            BuildAll(j, vis, st, es, abs, rel, [de])
            == if child.Ok? then Ok((child.value.0, es + [child.value.1]))
               else if Fatal(child.error) then Err(child.error) else Ok((st, es))
  {
    hide *;
    assert [de][0..] == [de] && [de][1..] == [];
    AllNext(j, vis, st, es, abs, rel, [de], 0);
    var child := BuildChild(j, vis, st, abs, rel, de);
    if child.Ok? {
      AllDone(j, vis, child.value.0, es + [child.value.1], abs, rel);
    } else if Fatal(child.error) {
      assert BuildAll(j, vis, st, es, abs, rel, [de]) == Err(child.error);
    } else {
      AllDone(j, vis, st, es, abs, rel);
    }
  }

  /** A regular file that is left out adds nothing, and stops the builder at the limit. */
  lemma LeftOutStops(j: Job, vis: set<string>, st: Built, abs: string, rel: string, de: DirEnt)
    requires Sane(j) && vis <= j.fs.realPaths && LeavesOut(j, abs, rel, de)
    ensures var b := BuildChild(j, vis, st, abs, rel, de);
            b.Err? && (Fatal(b.error) <==> st.fileCount >= j.opts.maxFiles)
  {
    hide JoinClean, ChildPath, Sane, BuildDir, Look, Room, Span, GoodName;
  }

  lemma DownBuilds(j: Job, vis: set<string>, st: Built, abs: string, rel: string, de: DirEnt)
    requires Sane(j) && vis <= j.fs.realPaths && LeadsDown(j, abs, rel, de)
    ensures var b, dir := BuildChild(j, vis, st, abs, rel, de), BuildDir(j, vis, st, JoinClean(abs, de.name), ChildPath(rel, de.name));
            if dir.Ok? then b.Ok? && b.value.0 == dir.value.0 else b.Err? && b.error == dir.error
  {
    hide JoinClean, ChildPath, Sane, BuildDir, Look, Room, Span, GoodName;
  }

  lemma {:induction false} LeftOutLast(
    j: Job, vis: set<string>, st: Built, abs: string, rel: string, steps: seq<DirEnt>)
    requires Sane(j) && vis <= j.fs.realPaths && EndsLeftOut(j, abs, rel, steps) && StepsLast(j, abs, steps)
    ensures var b := BuildDir(j, vis, st, abs, rel); b.Ok? ==> b.value.0.fileCount < j.opts.maxFiles
    decreases |steps|
  {
    hide BuildDir, BuildAll, BuildChild, JoinClean, ChildPath, Sane, LeavesOut, LeadsDown, Stack, Revisits, Fatal, SortByName, TreeHash, GoodName;
    DirOf(j, vis, st, abs, rel);
    if BuildDir(j, vis, st, abs, rel).Ok? {
      var de, des, now := steps[0], j.fs.readDir(abs).value, Stack(j, vis, abs);
      var init := des[..|des| - 1];
      assert des == init + [de];
      BuildAllConcat(j, now, st, [], abs, rel, init, [de]);
      var (mid, es) := BuildAll(j, now, st, [], abs, rel, init).value;
      BuildAllOne(j, now, mid, es, abs, rel, de);
      if |steps| == 1 {
        LeftOutStops(j, now, mid, abs, rel, de);
      } else {
        var path, under := JoinClean(abs, de.name), ChildPath(rel, de.name);
        DownBuilds(j, now, mid, abs, rel, de);
        DirOf(j, now, mid, path, under);
        CyclicIsFatal();
        LeftOutLast(j, now, mid, path, under, steps[1..]);
      }
    }
  }

  lemma CyclicIsFatal()
    ensures Fatal(CyclicLink)
  {
  }

  // ---- An order in which it comes last ----

  /** The same names with `de` moved to the end. */
  ghost function MovedLast(des: seq<DirEnt>, de: DirEnt): (r: seq<DirEnt>)
    requires de in des
    ensures r != [] && r[|r| - 1] == de
    ensures forall d :: d in r <==> d in des
    ensures GoodListing(des) ==> GoodListing(r)
  {
    var i :| 0 <= i < |des| && des[i] == de;
    var r := des[..i] + des[i + 1..] + [de];
    MovedSame(des, i);
    r
  }

  lemma MovedSame(des: seq<DirEnt>, i: nat)
    requires i < |des|
    ensures var r := des[..i] + des[i + 1..] + [des[i]];
            && (forall d :: d in r <==> d in des)
            && (GoodListing(des) ==> GoodListing(r))
  {
    var r, last := des[..i] + des[i + 1..] + [des[i]], |des| - 1;
    assert forall k :: 0 <= k < |des| ==> r[k] == if k < i then des[k] else if k < last then des[k + 1] else des[i];
    forall d ensures d in r <==> d in des {
      if d in des {
        var k :| 0 <= k < |des| && des[k] == d;
        assert r[if k < i then k else if k > i then k - 1 else last] == d;
      }
    }
  }

  function Override(j: Job, abs: string, des: seq<DirEnt>): Job {
    j.(fs := j.fs.(readDir := (p: string) => if p == abs then Some(des) else j.fs.readDir(p)))
  }

  /** The job with every step moved to the end of its listing. */
  ghost function Reordered(j: Job, abs: string, steps: seq<DirEnt>): Job
    requires StepsListed(j, abs, steps)
    decreases |steps|
  {
    if steps == [] then j
    else Override(Reordered(j, JoinClean(abs, steps[0].name), steps[1..]), abs, MovedLast(j.fs.readDir(abs).value, steps[0]))
  }

  /** What is listed further up does not matter to steps further down. */
  lemma {:induction false} OverrideAbove(k: Job, abs: string, des: seq<DirEnt>, p: string, steps: seq<DirEnt>)
    requires |Components(abs)| < |Components(p)| && StepsLast(k, p, steps)
    ensures StepsLast(Override(k, abs, des), p, steps)
    decreases |steps|
  {
    hide Components, JoinClean, EndsWith;
    if steps != [] {
      JoinAddsComponent(p, steps[0].name);
      OverrideAbove(k, abs, des, JoinClean(p, steps[0].name), steps[1..]);
    }
  }

  lemma {:induction false} ReorderedIs(j: Job, abs: string, steps: seq<DirEnt>)
    requires Sane(j) && StepsListed(j, abs, steps)
    ensures var k := Reordered(j, abs, steps); Sane(k) && SameButOrder(j, k) && StepsLast(k, abs, steps)
    decreases |steps|
  {
    hide Components, JoinClean, GoodListing, Sane, SameButOrder;
    SameAsItself(j);
    if steps != [] {
      var child := JoinClean(abs, steps[0].name);
      var k', des := Reordered(j, child, steps[1..]), MovedLast(j.fs.readDir(abs).value, steps[0]);
      ReorderedIs(j, child, steps[1..]);
      JoinAddsComponent(abs, steps[0].name);
      OverrideAbove(k', abs, des, child, steps[1..]);
      OverrideKeeps(j, k', abs, des);
    }
  }

  lemma SameAsItself(j: Job)
    ensures SameButOrder(j, j)
  {
  }

  lemma OverrideKeeps(j: Job, k: Job, abs: string, des: seq<DirEnt>)
    requires Sane(j) && Sane(k) && SameButOrder(j, k) && SameListing(j.fs.readDir(abs), Some(des))
    requires j.fs.readDir(abs).Some? && (GoodListing(j.fs.readDir(abs).value) ==> GoodListing(des))
    ensures Sane(Override(k, abs, des)) && SameButOrder(j, Override(k, abs, des))
  {
    hide Components, GoodListing;
    var o := Override(k, abs, des);
    assert forall p :: o.fs.readDir(p) == if p == abs then Some(des) else k.fs.readDir(p);
    assert o.fs == k.fs.(readDir := o.fs.readDir);
  }

  lemma {:induction false} EndsLeftOutSame(j: Job, k: Job, abs: string, rel: string, steps: seq<DirEnt>)
    requires SameButOrder(j, k) && EndsLeftOut(j, abs, rel, steps)
    ensures EndsLeftOut(k, abs, rel, steps)
    decreases |steps|
  {
    hide JoinClean, ChildPath, SameButOrder, LeavesOut, LeadsDown;
    SameLook(j, k, abs, rel, steps[0]);
    if |steps| > 1 {
      EndsLeftOutSame(j, k, JoinClean(abs, steps[0].name), ChildPath(rel, steps[0].name), steps[1..]);
    }
  }

  // ---- The exact condition ----

  ghost predicate Succeeds(j: Job, root: string) {
    Sane(j) && BuildDir(j, {}, EMPTY, root, "").Ok?
  }

  /** The tree can be built, and its files leave room below the limit, or they fill it at most and no regular
      file that is looked at is left out. */
  ghost predicate Fits(j: Job, root: string)
    requires Sane(j)
  {
    var files := Count(Listing(j, {}, root, "")).files;
    && Entries(j, {}, root, "").Ok?
    && (files < j.opts.maxFiles || (files <= Max(0, j.opts.maxFiles) && KeepsDir(j, {}, root, "")))
  }

  /** What the builder gives from nothing: the files of the tree, within the limit, or no room for them. */
  lemma FromNothing(j: Job, root: string)
    requires Sane(j)
    ensures var b, files := BuildDir(j, {}, EMPTY, root, ""), Count(Listing(j, {}, root, "")).files;
            && (b.Ok? ==> Entries(j, {}, root, "").Ok? && b.value.0.fileCount == files <= Max(0, j.opts.maxFiles))
            && (b.Err? && Entries(j, {}, root, "").Ok? ==>
                  if KeepsDir(j, {}, root, "") then files > 0 && files > j.opts.maxFiles else files >= j.opts.maxFiles)
  {
    hide *;
    DirMeans(j, {}, EMPTY, root, "");
    AgreesFromNothing(j, BuildDir(j, {}, EMPTY, root, ""), Entries(j, {}, root, ""), Listing(j, {}, root, ""), KeepsDir(j, {}, root, ""));
  }

  lemma AgreesFromNothing(
    j: Job, b: Result<(Built, Hash), BuildError>, t: Result<seq<Entry>, BuildError>, listing: seq<Visit>, keeps: bool)
    requires Agree(j, EMPTY, b, HashOf(j, t), WithSelf(listing), keeps)
    ensures b.Ok? ==> t.Ok? && b.value.0.fileCount == Count(listing).files <= Max(0, j.opts.maxFiles)
    ensures b.Err? && t.Ok? ==>
              if keeps then Count(listing).files > 0 && Count(listing).files > j.opts.maxFiles
              else Count(listing).files >= j.opts.maxFiles
  {
    hide Count, TreeHash;
  }

  lemma FitsInOrder(j: Job, k: Job, root: string)
    requires Sane(j) && Sane(k) && SameButOrder(j, k) && Fits(j, root)
    ensures Succeeds(k, root)
  {
    OrderIrrelevant(j, k, {}, root, "");
    FromNothing(k, root);
    assert k.opts == j.opts by { SameOptions(j, k); }
    hide BuildDir, Entries, Listing, KeepsDir, Count, Sane, SameButOrder;
  }

  lemma SameOptions(j: Job, k: Job)
    requires SameButOrder(j, k)
    ensures k.opts == j.opts
  {
  }

  /** Where a capture does not fit, some order of the listings makes it fail. */
  lemma FailingOrder(j: Job, root: string) returns (k: Job)
    requires Sane(j) && !Fits(j, root)
    ensures Sane(k) && SameButOrder(j, k) && !Succeeds(k, root)
  {
    hide BuildDir, Entries, Listing, KeepsDir, Count, Sane, SameButOrder, EndsLeftOut, StepsListed, StepsLast;
    var files := Count(Listing(j, {}, root, "")).files;
    FromNothing(j, root);
    SameAsItself(j);
    k := j;
    if Entries(j, {}, root, "").Ok? && files <= Max(0, j.opts.maxFiles) {
      var steps := FindLeftOut(j, {}, root, "");
      k := Reordered(j, root, steps);
      ReorderedIs(j, root, steps);
      EndsLeftOutSame(j, k, root, "", steps);
      LeftOutLast(k, {}, EMPTY, root, "", steps);
      OrderIrrelevant(j, k, {}, root, "");
      FromNothing(k, root);
      SameOptions(j, k);
    }
  }

  /** A capture succeeds in every order of the listings iff it fits. */
  lemma EveryOrderIff(j: Job, root: string)
    requires Sane(j)
    ensures (forall k :: Sane(k) && SameButOrder(j, k) ==> Succeeds(k, root)) <==> Fits(j, root)
  {
    hide *;
    if Fits(j, root) {
      forall k | Sane(k) && SameButOrder(j, k) ensures Succeeds(k, root) {
        FitsInOrder(j, k, root);
      }
    } else {
      var k := FailingOrder(j, root);
    }
  }
}

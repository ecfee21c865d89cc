/** The breadth-first descendant search over the parent index of the store. The child relation
    comes from client-supplied provenance, so nothing rules out cycles or self-loops. */
module Descendants {
  import opened Basics

  /** Parent context id to the ids of the contexts that name it as their parent. */
  type ParentIndex = map<nat, set<nat>>

  function Children(idx: ParentIndex, c: nat): set<nat> {
    if c in idx then idx[c] else {}
  }

  /** Every id that occurs as a child. */
  ghost function Universe(idx: ParentIndex): set<nat> {
    set c, x | c in idx && x in idx[c] :: x
  }

  // ---- Declarative side: child paths, descendants, distance ----

  /** `p` starts at a child of `root` and takes one child step at a time. */
  ghost predicate IsChildPath(idx: ParentIndex, root: nat, p: seq<nat>) {
    && p != []
    && p[0] in Children(idx, root)
    && forall i :: 0 <= i < |p| - 1 ==> p[i + 1] in Children(idx, p[i])
  }

  ghost predicate PathTo(idx: ParentIndex, root: nat, p: seq<nat>, x: nat) {
    IsChildPath(idx, root, p) && p[|p| - 1] == x
  }

  ghost predicate IsDescendant(idx: ParentIndex, root: nat, x: nat) {
    exists p :: PathTo(idx, root, p, x)
  }

  ghost function AllDescendants(idx: ParentIndex, root: nat): set<nat> {
    set x | x in Universe(idx) && IsDescendant(idx, root, x)
  }

  /** `x` is at child-distance at most `d` from `root`. */
  ghost predicate AtDistance(idx: ParentIndex, root: nat, x: nat, d: nat) {
    exists p :: PathTo(idx, root, p, x) && |p| <= d
  }

  /** Everything nearer than some member of `s` is in `s` too. */
  ghost predicate LevelClosed(idx: ParentIndex, root: nat, s: set<nat>) {
    forall x, y, d: nat ::
      x in s && !AtDistance(idx, root, x, d) && AtDistance(idx, root, y, d) ==> y in s
  }

  function Elements(s: seq<nat>): set<nat> {
    set x | x in s
  }

  ghost predicate StrictlyDescending(s: seq<nat>) {
    forall i, j :: 0 <= i < j < |s| ==> s[i] > s[j]
  }

  // ---- Levels, the bridge between paths and the queue ----

  /** The ids reachable in one to `d` child steps. */
  ghost function Within(idx: ParentIndex, root: nat, d: nat): set<nat> {
    if d == 0 then {}
    else Children(idx, root) + set x, y | x in Within(idx, root, d - 1) && y in Children(idx, x) :: y
  }

  lemma {:induction false} WithinGrows(idx: ParentIndex, root: nat, d: nat, e: nat)
    requires d <= e
    ensures Within(idx, root, d) <= Within(idx, root, e)
  {
    if d > 0 {
      WithinGrows(idx, root, d - 1, e - 1);
    }
  }

  lemma {:induction false} WithinHasPath(idx: ParentIndex, root: nat, d: nat, y: nat)
    requires y in Within(idx, root, d)
    ensures AtDistance(idx, root, y, d)
  {
    if y in Children(idx, root) {
      assert PathTo(idx, root, [y], y);
    } else {
      var x :| x in Within(idx, root, d - 1) && y in Children(idx, x);
      WithinHasPath(idx, root, d - 1, x);
      var p :| PathTo(idx, root, p, x) && |p| <= d - 1;
      assert PathTo(idx, root, p + [y], y);
    }
  }

  lemma {:induction false} PathIsWithin(idx: ParentIndex, root: nat, p: seq<nat>)
    requires IsChildPath(idx, root, p)
    ensures p[|p| - 1] in Within(idx, root, |p|)
  {
    if |p| > 1 {
      PathIsWithin(idx, root, p[..|p| - 1]);
    }
  }

  /** The levels are exactly the distance balls. */
  lemma WithinIsDistance(idx: ParentIndex, root: nat, d: nat, x: nat)
    ensures x in Within(idx, root, d) <==> AtDistance(idx, root, x, d)
  {
    if x in Within(idx, root, d) {
      WithinHasPath(idx, root, d, x);
    }
    if AtDistance(idx, root, x, d) {
      var p :| PathTo(idx, root, p, x) && |p| <= d;
      PathIsWithin(idx, root, p);
      WithinGrows(idx, root, |p|, d);
    }
  }

  lemma WithinAreDescendants(idx: ParentIndex, root: nat, d: nat)
    ensures Within(idx, root, d) <= AllDescendants(idx, root)
  {
    forall x | x in Within(idx, root, d) ensures x in AllDescendants(idx, root) {
      WithinHasPath(idx, root, d, x);
    }
  }

  /** A set that holds the root's children and is closed under child steps holds every descendant. */
  lemma {:induction false} ClosedHoldsPath(idx: ParentIndex, root: nat, s: set<nat>, p: seq<nat>)
    requires Children(idx, root) <= s
    requires forall x :: x in s ==> Children(idx, x) <= s
    requires IsChildPath(idx, root, p)
    ensures p[|p| - 1] in s
  {
    if |p| > 1 {
      ClosedHoldsPath(idx, root, s, p[..|p| - 1]);
    }
  }

  // ---- The code ----

  /** Sorting a set of ids in descending order. */
  function SortDescending(s: set<nat>): (r: seq<nat>)
    ensures StrictlyDescending(r)
    ensures forall x :: x in r <==> x in s
    ensures |r| == |s|
  {
    if s == {} then [] else
      var m := Largest(s);
      var rest := SortDescending(s - {m});
      LargestFirst(s, m, rest);
      [m] + rest
  }

  lemma LargestFirst(s: set<nat>, m: nat, rest: seq<nat>)
    requires m in s && forall y :: y in s ==> y <= m
    requires StrictlyDescending(rest) && |rest| == |s - {m}| && forall x :: x in rest <==> x in s - {m}
    ensures StrictlyDescending([m] + rest) && |[m] + rest| == |s| && forall x :: x in [m] + rest <==> x in s
  {
    forall i | 0 <= i < |rest| ensures rest[i] < m {
      assert rest[i] in rest;
    }
  }

  function ChildContextIds(idx: ParentIndex, parent: nat): (ids: seq<nat>)
    ensures forall y :: y in ids <==> y in Children(idx, parent)
  {
    SortDescending(Children(idx, parent))
  }

  /** The entries of `kids` still worth queueing. */
  function Unvisited(kids: seq<nat>, visited: set<nat>): (r: seq<nat>)
    ensures forall y :: y in r <==> y in kids && y !in visited
  {
    if kids == [] then []
    else
      var rest := Unvisited(kids[..|kids| - 1], visited);
      var last := kids[|kids| - 1];
      assert kids == kids[..|kids| - 1] + [last];
      if last in visited then rest else rest + [last]
  }

  lemma UnvisitedStep(kids: seq<nat>, visited: set<nat>, j: nat)
    requires j < |kids|
    ensures Unvisited(kids[..j + 1], visited)
            == Unvisited(kids[..j], visited) + if kids[j] in visited then [] else [kids[j]]
  {
    assert kids[..j + 1][..j] == kids[..j];
  }

  /** The inner loop of the search: queue the children that are still unvisited. */
  method QueueUnvisited(queue: seq<nat>, kids: seq<nat>, visited: set<nat>) returns (q: seq<nat>)
    ensures q == queue + Unvisited(kids, visited)
  {
    q := queue;
    ghost var added := [];
    for j := 0 to |kids|
      invariant added == Unvisited(kids[..j], visited)
      invariant q == queue + added
    {
      UnvisitedStep(kids, visited, j);
      if kids[j] !in visited {
        ConcatAssociative(queue, added, [kids[j]]);
        q := q + [kids[j]];
        added := added + [kids[j]];
      }
    }
    assert kids[..|kids|] == kids;
  }

  /** The state of the search, with the queue split into what is left of level `d` and what has been
      found of level `d + 1`: everything nearer has been visited, and nothing at level `d` is lost. */
  ghost predicate Searching(
    idx: ParentIndex, root: nat, visited: set<nat>, cur: seq<nat>, next: seq<nat>, d: nat)
  {
    && d >= 1
    && Within(idx, root, d - 1) <= visited <= Within(idx, root, d)
    && (forall x :: x in Within(idx, root, d) ==> x in visited || x in cur)
    && (forall x :: x in cur ==> x in Within(idx, root, d))
    && (forall x :: x in next ==> x in Within(idx, root, d + 1))
    && ChildrenKept(idx, visited, cur, next)
  }

  /** The children of visited ids are visited or queued. */
  ghost predicate ChildrenKept(idx: ParentIndex, visited: set<nat>, cur: seq<nat>, next: seq<nat>) {
    forall x, y :: x in visited && y in Children(idx, x) ==> y in visited || y in cur || y in next
  }

  lemma Start(idx: ParentIndex, root: nat, queue: seq<nat>)
    requires forall y :: y in queue <==> y in Children(idx, root)
    ensures Searching(idx, root, {}, queue, [], 1)
  {
    assert Within(idx, root, 0) == {};
  }

  /** When level `d` is used up, the queue is exactly the start of level `d + 1`. */
  lemma NextLevel(idx: ParentIndex, root: nat, visited: set<nat>, queue: seq<nat>, d: nat)
    requires Searching(idx, root, visited, [], queue, d)
    ensures Searching(idx, root, visited, queue, [], d + 1)
  {
    WithinGrows(idx, root, 1, d);
    WithinGrows(idx, root, d, d + 1);
  }

  /** Popping an id that was visited before. */
  lemma PopSeen(idx: ParentIndex, root: nat, visited: set<nat>, c: nat, cur: seq<nat>, next: seq<nat>, d: nat)
    requires Searching(idx, root, visited, [c] + cur, next, d)
    requires c in visited
    ensures Searching(idx, root, visited, cur, next, d)
  {
    forall x | x in cur ensures x in [c] + cur {}
  }

  /** Popping a new id, marking it visited and queueing its unvisited children. */
  lemma PopNew(
    idx: ParentIndex, root: nat, visited: set<nat>, c: nat, cur: seq<nat>, next: seq<nat>, d: nat, found: seq<nat>)
    requires Searching(idx, root, visited, [c] + cur, next, d)
    requires forall y :: y in found <==> y in Children(idx, c) && y !in visited + {c}
    ensures Searching(idx, root, visited + {c}, cur, next + found, d)
    ensures c in Universe(idx)
  {
    hide Within, AllDescendants, ChildrenKept, Children, Universe;
    assert c in [c] + cur && forall x :: x in [c] + cur <==> x == c || x in cur;
    PopKeepsChildren(idx, visited, c, cur, next, found);
    ChildrenWithin(idx, root, d, c);
    WithinIsUniverse(idx, root, d, c);
  }

  lemma ChildrenWithin(idx: ParentIndex, root: nat, d: nat, c: nat)
    requires d >= 1 && c in Within(idx, root, d)
    ensures Children(idx, c) <= Within(idx, root, d + 1)
  {
  }

  lemma WithinIsUniverse(idx: ParentIndex, root: nat, d: nat, c: nat)
    requires c in Within(idx, root, d)
    ensures c in Universe(idx)
  {
    WithinAreDescendants(idx, root, d);
  }

  lemma PopKeepsChildren(idx: ParentIndex, visited: set<nat>, c: nat, cur: seq<nat>, next: seq<nat>, found: seq<nat>)
    requires ChildrenKept(idx, visited, [c] + cur, next)
    requires forall y :: y in found <==> y in Children(idx, c) && y !in visited + {c}
    ensures ChildrenKept(idx, visited + {c}, cur, next + found)
  {
    forall x, y | x in visited + {c} && y in Children(idx, x) ensures y in visited + {c} || y in cur || y in next + found {
      if x != c && y !in visited && y !in next {
        assert y in [c] + cur;
      }
    }
  }

  /** A set wedged between two consecutive levels is closed under "nearer". */
  lemma WedgedIsLevelClosed(idx: ParentIndex, root: nat, d: nat, visited: set<nat>)
    requires d >= 1
    requires Within(idx, root, d - 1) <= visited <= Within(idx, root, d)
    ensures LevelClosed(idx, root, visited)
  {
    forall x, y, e: nat | x in visited && !AtDistance(idx, root, x, e) && AtDistance(idx, root, y, e)
      ensures y in visited
    {
      WithinIsDistance(idx, root, e, x);
      WithinIsDistance(idx, root, e, y);
      if e >= d {
        WithinGrows(idx, root, d, e);
      } else {
        WithinGrows(idx, root, e, d - 1);
      }
    }
  }

  lemma ClosedIsEverything(idx: ParentIndex, root: nat, visited: set<nat>)
    requires Children(idx, root) <= visited
    requires ChildrenKept(idx, visited, [], [])
    ensures AllDescendants(idx, root) <= visited
  {
    forall x | x in AllDescendants(idx, root) ensures x in visited {
      var p :| PathTo(idx, root, p, x);
      ClosedHoldsPath(idx, root, visited, p);
    }
  }

  lemma SubsetSize(s: set<nat>, t: set<nat>)
    requires s <= t
    ensures |s| <= |t|
    ensures |s| == |t| ==> s == t
  {
    assert t == s + (t - s);
  }

  /** What the search has established when it ends with the given visited set. */
  lemma Finish(idx: ParentIndex, root: nat, visited: set<nat>, cur: seq<nat>, next: seq<nat>, d: nat)
    requires Searching(idx, root, visited, cur, next, d)
    ensures visited <= AllDescendants(idx, root)
    ensures |visited| <= |AllDescendants(idx, root)|
    ensures LevelClosed(idx, root, visited)
    ensures cur == next == [] ==> visited == AllDescendants(idx, root)
  {
    WithinAreDescendants(idx, root, d);
    WedgedIsLevelClosed(idx, root, d, visited);
    SubsetSize(visited, AllDescendants(idx, root));
    if cur == next == [] {
      WithinGrows(idx, root, 1, d);
      ClosedIsEverything(idx, root, visited);
    }
  }

  lemma Pop(queue: seq<nat>, cur: seq<nat>, next: seq<nat>)
    requires queue == cur + next && cur != []
    ensures queue[0] == cur[0] && cur == [queue[0]] + cur[1..]
    ensures queue[1..] == cur[1..] + next
  {
  }

  lemma SortedElements(s: set<nat>)
    ensures Elements(SortDescending(s)) == s
  {
  }

  lemma Push(out: seq<nat>, c: nat)
    requires c !in Elements(out)
    ensures Elements(out + [c]) == Elements(out) + {c}
    ensures |Elements(out + [c])| == |Elements(out)| + 1
  {
    assert (out + [c])[|out|] == c;
    forall x | x in Elements(out) + {c} ensures x in Elements(out + [c]) {}
  }

  /** The worklist loop. It ends with an empty queue or at the limit, which is looked at only after an
      id has been put out: a limit of 0 acts like a limit of 1. */
  method Search(idx: ParentIndex, root: nat, limit: Option<nat>)
    returns (out: seq<nat>, ghost cur: seq<nat>, ghost next: seq<nat>, ghost d: nat)
    ensures Searching(idx, root, Elements(out), cur, next, d)
    ensures |out| == |Elements(out)|
    ensures cur == next == [] || (limit.Some? && |out| == Max(limit.value, 1))
    ensures limit.Some? ==> |out| <= Max(limit.value, 1)
  {
    hide Searching, Unvisited, SortDescending, Children, LevelClosed, Within, AllDescendants;
    out := [];
    var visited: set<nat> := {};
    var queue := ChildContextIds(idx, root);
    cur, next, d := queue, [], 1;
    Start(idx, root, queue);
    while queue != []
      invariant queue == cur + next
      invariant Searching(idx, root, visited, cur, next, d)
      invariant visited == Elements(out) && |out| == |visited|
      invariant limit.Some? ==> |out| < limit.value || out == []
      decreases Universe(idx) - visited, |queue|
    {
      if cur == [] {
        NextLevel(idx, root, visited, next, d);
        cur, next, d := next, [], d + 1;
      }
      Pop(queue, cur, next);
      var contextId := queue[0];
      queue := queue[1..];
      cur := cur[1..];
      if contextId in visited {
        PopSeen(idx, root, visited, contextId, cur, next, d);
        continue;
      }
      var kids := ChildContextIds(idx, contextId);
      ghost var found := Unvisited(kids, visited + {contextId});
      PopNew(idx, root, visited, contextId, cur, next, d, found);
      ConcatAssociative(cur, next, found);
      Push(out, contextId);
      visited := visited + {contextId};
      out := out + [contextId];
      next := next + found;
      if limit.Some? && |out| >= limit.value {
        return;
      }
      queue := QueueUnvisited(queue, kids, visited);
    }
    assert |cur| + |next| == 0;
  }

  method DescendantContextIds(idx: ParentIndex, root: nat, limit: Option<nat>) returns (ids: seq<nat>)
    ensures StrictlyDescending(ids)
    ensures LevelClosed(idx, root, Elements(ids))
    ensures Elements(ids) <= AllDescendants(idx, root)
    ensures limit.None? ==> Elements(ids) == AllDescendants(idx, root)
    ensures limit.Some? ==> |ids| == Min(Max(limit.value, 1), |AllDescendants(idx, root)|)
  {
    var out, cur, next, d := Search(idx, root, limit);
    Finish(idx, root, Elements(out), cur, next, d);
    ids := SortDescending(Elements(out));
    SortedElements(Elements(out));
  }
}

# CXDB: verified models

CXDB stores conversation turns in a DAG, keeps payloads and filesystem snapshots under the digests of
their contents, and ships clients that follow, capture and deliver. This project models the parts of it
whose correctness does not show in any single function, and proves what they promise over every input or
over every run.

The code under study changes its state step by step, so each component is modelled twice. A pure function
says what one call computes, with the branches, order and error cases of the code. A class (or a method with
loops) has the code's fields and control flow and is proved to compute that function. The main theorems are
lemmas about the function: invariants of every run, independent declarative definitions, round trips.

| file | component | main results |
|---|---|---|
| `Descendants` | breadth-first descendant search | equals reachability, also on cyclic relations; level-closed under a limit |
| `FsContentSize` | size of a shared Merkle DAG | never more than the closure of the roots, equal to it without a conflict of kinds, and which hashes are counted in general |
| `Store`, `StoreForks`, `FollowedStore` | turns, heads, payloads, forks, metadata cache | payloads never dangle; a fork is served as its base; cache against reload; the chains are what a follower needs |
| `Follow` | turn follower | no repeats, strictly increasing, gap-free exactly when the head stands still |
| `Captures`, `CaptureMeaning`, `CaptureLooks`, `CaptureOrder`, `CaptureLimit`, `CaptureCycles`, `CaptureSealed`, `CaptureWalk`, `CaptureFiles`, `NameOrder` | snapshot builder | the result is a function of the files alone; exactly when it succeeds at the file limit and when links end it; the order of listings; closed, acyclic, walks back to the listing |
| `Snapshots`, `SnapshotDiffs`, `Paths`, `Text` | walk, lookup, diff, path splitting | walk and lookup agree; a diff is the exact patch |
| `Delivery` | retrying delivery queue | conservation, marker protocol, backoff, exact draining |
| `SessionHistory` | history differ | replay reconstructs, batches are minimal, ordinals consecutive |
| `EventStream`, `TurnWire` | two parsers | round trips, with the exact inputs on which they fail |
| `S3Sync`, `SessionTracker` | backup and session maps | which objects stay prefixes over failures, crashes and rewritten files, and what a synchronisation repairs; inverse maps |

## What the code does that its documentation does not say

Where the two differ the model follows the code.

- `clients/go/fstree/options.go:48` says circular symlinks are detected and skipped. They are detected, and
  then end the whole capture (`clients/go/fstree/capture.go:151-153`); `RootCyclicIff` and `CycleEndsCapture` say when,
  `SelfLinkStops` shows a file system.
- `clients/go/fstree/types.go:63` says symlinks have size 0; the builder stores the length of the target
  (`clients/go/fstree/capture.go:197-203`).
- `clients/go/fstree/options.go:55-66`: files over the maximum size are skipped, and the number of files included is
  limited. But the limit is checked before the size (`clients/go/fstree/capture.go:221-228`), so files that are
  skipped count against it too once it is filled: a capture whose files fit can fail. `FittingCaptureFails` shows
  one, `CaptureFitsIff` says exactly when.
- `server/src/store.rs:355-381`: a descendant limit of 0 acts like a limit of 1.
- `server/src/store.rs:537-592`: a hash that is referred to as a file before it is visited as a directory hides
  what is below it; see `ConflictLosesBytes` and `MissedIff`.
- `server/src/store.rs:134-148`: reading the metadata of a context before its first append, or reopening the
  store while it is empty, caches "no metadata" for good; see `CacheAgreesIff` and `ReadTooEarly`.
- `server/src/turn_store/mod.rs:386-445`: an append below a given turn makes the context it names, whatever its id, and
  does not advance the counter of context ids (`server/src/turn_store/mod.rs:347-348`), so a context created later can
  take over that id; see `TakenOver` and `NewContextsAreNew`.
- `clients/go/follow.go:126-160`: turns appended between the two reads of a synchronisation push the oldest
  missing ones out of the answer, and they are never sent later; see `GapRun` and `GapFreeIff`.
- `cxtx/src/delivery.rs:131-151`: a context creation queued behind the recovery marker leaves the worker
  degraded with an empty queue; see `Drains` and `StuckDegraded`. The program creates its context once
  (`cxtx/src/lib.rs:115`); when that is the first item queued it cannot happen; see `NeverStuckWithOneCreation`.
- `cxtx/src/session.rs:201-270`: from the flat log of turns alone two histories cannot be told apart
  (`FlatLogIsAmbiguous`); batches do it (`ReplayReconstructs`), and so does the length (`FlatLogAndLengthDetermine`).
- `clients/go/turn.go:188-206` always reads a payload length, which `server/src/main.rs:442-449` sends only with
  payloads; and an empty last payload reads as the end of input.
- `server/src/main.rs:494-500` is reached only when a connection ends cleanly, so the contexts of an aborted one
  stay live; see `LiveIff`.
- `server/src/s3_sync.rs:284-288` compares lengths only, while every start writes the turn index again in the order
  of a hash map (`server/src/turn_store/mod.rs:309-317`), so an index of two or more turns can stay backed up in an
  order that the offsets of a longer one do not extend; see `IndexRewriteIsMissed`.
- `clients/go/subscribe.go:230-255`: an event is flushed at the end of the stream only from a last line without
  a line feed (`BrokenLineEnds`); after a complete last line it is dropped (`UnfinishedIsDropped`).

## Model

| member | source | states |
|---|---|---|
| `Descendants.DescendantContextIds` | server/src/store.rs:355-381 | without a limit the result is exactly the set of contexts reachable in one or more child steps, in strictly descending order; with limit n it has min(max(n,1), number of descendants) of them and contains every descendant that is nearer than one it contains |
| `Descendants.Search` | server/src/store.rs:360-377 | when the worklist loop ends, what it has put out lies between two consecutive distance balls around the root, nothing is put out twice, and the queue is empty unless the limit was reached; it terminates on cyclic relations |
| `Descendants.ChildContextIds` | server/src/store.rs:342-350 | lists every context that records this one as its parent, and no other |
| `Descendants.QueueUnvisited` | server/src/store.rs:370-375 | the queue grows by exactly the children not visited yet, in order |
| `Descendants.PopNew` | server/src/store.rs:362-376 | visiting a new context and queueing its unvisited children keeps: everything nearer is visited and nothing on the current level is lost |
| `Descendants.NextLevel` | server/src/store.rs:360-377 | when a level is used up the queue is exactly the start of the next one |
| `Descendants.WithinIsDistance` | server/src/store.rs:355-381 | the levels of the search are the sets of contexts at a given least number of child steps, defined by paths |
| `Descendants.Finish` | server/src/store.rs:360-381 | a search that ended early is sound and level-closed; one that emptied its queue has found everything |
| `FsContentSize.TreeSizer.ComputeFsContentBytes` | server/src/store.rs:537-553 | the total is the sum of raw blob lengths over the hashes visited, each counted once; it never exceeds the sum over the closure of the attached roots, and equals it when no reachable tree hash is also referred to as a file |
| `FsContentSize.TreeSizer.ComputeTreeSize` | server/src/store.rs:556-592 | the amount returned is the size of exactly the hashes this call newly visited; visited hashes are never forgotten; it terminates although trees may refer to each other in a cycle |
| `FsContentSize.WalkIsClosure` | server/src/store.rs:537-592 | the walk counts nothing unreachable, and without a conflict of kinds it counts exactly the reachable hashes, whatever the order of roots and entries |
| `FsContentSize.VisitExpands` | server/src/store.rs:556-592 | whatever is newly visited as a directory has had all its entries visited by the time the call returns |
| `FsContentSize.VisitIsSound` | server/src/store.rs:556-592 | only hashes reachable from the roots are ever visited |
| `FsContentSize.ConflictLosesBytes` | server/src/store.rs:556-592 | the condition is needed: a store on which a reachable hash is never counted |
| `FsContentSize.CountedIff` | server/src/store.rs:537-592 | in general: a hash is counted if and only if some path of references leads to it from a root through no directory that the walk met as a file first |
| `FsContentSize.MissedIff` | server/src/store.rs:537-592 | a reachable hash is missed if and only if every path to it goes through such a directory |
| `FsContentSize.PlainPathIsCounted` | server/src/store.rs:537-592 | what can be told before the walk: a hash is counted when some path leads to it through no hash that is reachable both as a directory and as a file |
| `FsContentSize.RefsOfIff` | server/src/store.rs:566-590 | a tree refers to exactly the hashes of 32 bytes that its entries have, as directories exactly when their kind is 1 |
| `Store.TurnStore.AppendTurn` | server/src/store.rs:196-260 | checks compression, length and digest in that order, stores the payload once, records a turn under the requested parent or the head, moves the head, and returns metadata only on the first append; a failed append changes no turn, head or cache entry |
| `Store.TurnStore.RecordTurn` | server/src/turn_store/mod.rs:375-470 | the new turn has the next id, its parent's depth plus one, and becomes the head of its context; an unknown parent or context changes nothing |
| `Store.TurnStore.CreateContext` | server/src/turn_store/mod.rs:336-361 | a new context has the next id and its head at the base turn, with the depth of that turn, or starts empty without one; an unknown base turn is an error and changes nothing; `StoreForks.ForkServesBase` says what it then serves |
| `Store.TurnStore.GetContextMetadata` | server/src/store.rs:134-158 | a cached entry is returned as it is; otherwise the metadata of the first turn is loaded and kept, its absence included |
| `Store.TurnStore.MaybeCacheMetadata` | server/src/store.rs:161-178 | only the first append to an uncached context extracts metadata, and indexes it under the parent it names |
| `Store.TurnStore.GetFirstTurn` | server/src/turn_store/mod.rs:559-579 | walking back from the head finds the ancestor of depth 0 |
| `Store.TurnStore.LastTurns` | server/src/turn_store/mod.rs:503-522 | the turns returned are the last ones of the chain of the context, oldest first |
| `Store.TurnStore.GetLast` | server/src/store.rs:262-284 | the last turns are returned with the payloads stored under their digests; a missing payload or context is an error |
| `Store.RunKeepsCore` | server/src/store.rs:180-284 | over every run: turns are numbered upwards and one deeper than their parent, heads agree with their turn, every blob lies under its digest and every payload is stored |
| `Store.RunKeepsCacheOk` | server/src/store.rs:134-178 | over every run, for contexts created empty and only extended at their head: the entry and the parent index say what a load from the first turn says, or nothing at all when they were read too early |
| `Store.PayloadsNeverDangle` | server/src/store.rs:262-284 | after any run, reading the last turns of a context with payloads succeeds, gives the end of a chain of depths 0, 1, 2, ..., and each payload has the digest that its turn records |
| `Store.AppendExtendsChain` | server/src/store.rs:196-260 | an append at the head extends the chain of that context by one turn and leaves every other chain alone |
| `Store.CachedEntryStays` | server/src/store.rs:134-178 | while the store is open, a cached entry never changes, whatever operation follows |
| `Store.AnnouncedOnce` | server/src/store.rs:161-178 | over any run, reopening included, at most one append to a context returns metadata |
| `Store.CacheAgreesIff` | server/src/store.rs:134-178 | for a context created empty, always extended at its head, and with at least one turn: the cache equals a fresh load if and only if it was not cached before the first append or the first turn carries no metadata |
| `Store.ReadTooEarly` | server/src/store.rs:134-148 | a concrete run on which metadata that is there stays hidden |
| `Store.ForkedContextIff` | server/src/store.rs:161-178 | on a forked context the first append caches what its own payload says while a load still gives what the original first turn says, so they agree just when these two do |
| `StoreForks.ForkServesBase` | server/src/turn_store/mod.rs:336-361 | a context made from an existing turn is created, starts as that turn and all its ancestors, and reading its last turns with payloads gives what reading those of the turn gives; without a base it starts empty; every other head and chain stays |
| `StoreForks.CreateShape` | server/src/turn_store/mod.rs:336-361 | the new context has the next id and the base turn with its depth as its head; ids are given out one after another, and no turn or payload changes |
| `StoreForks.FirstAppendExtendsFork` | server/src/turn_store/mod.rs:375-470 | the first append to a new context goes below the turn it was made from, one deeper, and its chain is that of the base and the new turn, while every other context stays |
| `StoreForks.AppendSucceedsIff` | server/src/store.rs:196-260 | an append succeeds if and only if its payload, uncompressed as its compression says, has the length and the digest announced, and the turn asked for exists or, without one, the context does |
| `StoreForks.AppendFailsHow` | server/src/store.rs:196-260 | which error a failed append gives, in terms of the request and the store, and that it keeps the payload, and nothing else, exactly when only the parent is missing |
| `StoreForks.AppendPlaces` | server/src/turn_store/mod.rs:375-470 | a successful append numbers its turn next and puts it below the turn asked for or else the head, one deeper, and moves only the head of its context |
| `StoreForks.AppendStores` | server/src/blob_store/mod.rs:157-216 | after an append the uncompressed payload is stored under its digest, and no stored payload changes |
| `StoreForks.AppendBelow` | server/src/turn_store/mod.rs:386-407 | a turn appended below any turn continues the chain of that turn, and every other context keeps its chain |
| `StoreForks.PutBlobStoresIff` | server/src/blob_store/mod.rs:157-216 | a blob offered under a digest is stored if and only if it has that digest, and never replaces another |
| `StoreForks.NewContextsAreNew` | server/src/turn_store/mod.rs:336-361 | over every run from empty, reopening included, on which appends name existing contexts only, a new context gets an id that is not in use |
| `StoreForks.TakenOver` | server/src/turn_store/mod.rs:386-407 | an append below a turn that names the next context id makes that context, and the next new context takes its id over and starts empty |
| `StoreForks.ReopenedCounters` | server/src/turn_store/mod.rs:317-327 | opening the store again puts both counters one above the largest id in use, or at 1 |
| `FollowedStore.StoreServesTheChain` | server/src/store.rs:188-194 | the head the store reports and the last turns it returns with payloads are those of a chain with one turn per depth and no repeated id, as the follower assumes |
| `FollowedStore.LinearFromTheStart` | server/src/store.rs:196-284 | beside any run that keeps a context linear, the pairs of reads made along the way see one chain that only grows |
| `FollowedStore.FollowsTheStore` | clients/go/follow.go:120-181 | end to end: what a follower sends beside any such run is stored under the context, once each, in order of depth, and gap-free exactly when no synchronisation skipped turns |
| `Follow.FollowState.SyncContext` | clients/go/follow.go:120-161 | a synchronisation asks for as many turns as the head is ahead, sends the unseen ones in order until it is cancelled, and reports which request failed; a head below the last depth is an error and sends nothing |
| `Follow.FollowState.RecordTurn` | clients/go/follow.go:168-181 | the id is remembered, the oldest ids are evicted down to the bound, and the last depth only moves forward |
| `Follow.FollowState.constructor` | clients/go/follow.go:110-118 | a fresh state remembers nothing; a bound of zero or less becomes the default |
| `Follow.NeverRepeats` | clients/go/follow.go:120-181 | over any run on a growing chain, whatever fails and for every memory bound of at least 1: depths strictly increase and no turn is sent twice, so eviction never causes a duplicate |
| `Follow.SyncRound` | clients/go/follow.go:120-161 | a round sends a contiguous stretch of the chain; it starts right after the last turn sent exactly when the head stood still between the reads, and reaches the head unless it was cut |
| `Follow.RoundGap` | clients/go/follow.go:126-160 | a round keeps the stream gap-free exactly when it sends nothing or the head stood still |
| `Follow.GapFreeIff` | clients/go/follow.go:120-181 | a run is gap-free if and only if no round sent turns after the head had moved under it |
| `Follow.GapRun` | clients/go/follow.go:126-160 | a run with a gap: the head is read at one turn and the turns at two, and the first turn is never sent, although a later round finds the head still |
| `Follow.CatchesUp` | clients/go/follow.go:126-160 | if the head stands still in every round, each successful round ends with the whole chain sent from depth 0, whichever hints and requests were lost before |
| `Follow.SyncMemory` | clients/go/follow.go:168-181 | whatever the server answers, the remembered ids are exactly the last ones, up to the bound, of those remembered before followed by those sent, each once |
| `Follow.SyncReports` | clients/go/follow.go:120-161 | which of its outcomes a synchronisation reports for which answers, how many turns it asks for, and that it changes nothing unless the server returned turns; then those sent come from the answer, fill the room when it is cancelled, else leave no turn of the answer that is neither sent nor remembered, and the depth on record is the greatest sent, under the last turn sent at that depth |
| `Follow.HintDoes` | clients/go/follow.go:60-98 | a hint synchronises its context, once, if and only if it is a decodable turn_appended event with nonzero ids; any other changes nothing |
| `Follow.TurnFollower.Handle` | clients/go/follow.go:60-98 | a usable hint synchronises its own context and leaves every other one alone; any other hint does nothing |
| `Follow.TurnFollower.FollowTurns` | clients/go/follow.go:53-99 | following all contexts at once does for each of them what following it alone does |
| `Snapshots.Walker.VisitTree` | clients/go/fstree/snapshot.go:46-70 | visits each entry of a tree followed by what is below it, in order, and stops with the error of the first tree that is missing or cannot be decoded |
| `Snapshots.GetFileAtPath` | clients/go/fstree/snapshot.go:86-131 | follows the components of the cleaned path from tree to tree; says which of the ways to fail applies: empty path, missing or corrupt tree, no such name, not a directory, unknown or unreadable file |
| `Snapshots.FindEntry` | clients/go/fstree/snapshot.go:99-105 | the first entry of that name, if any |
| `Snapshots.LookupIffVisited` | clients/go/fstree/snapshot.go:42-131 | on a closed, acyclic snapshot with good unique names the walk succeeds, and a lookup finds an entry exactly when the walk visits that entry under the cleaned path |
| `Snapshots.VisitedIsFound` | clients/go/fstree/snapshot.go:46-131 | whatever the walk visits below a prefix is found by looking up the remaining components, which it names |
| `Snapshots.FoundIsVisited` | clients/go/fstree/snapshot.go:46-131 | whatever a lookup finds is visited by the walk under the joined components |
| `Snapshots.WalkVisitsOnce` | clients/go/fstree/snapshot.go:42-70 | no path is visited twice |
| `Snapshots.WalkSucceeds` | clients/go/fstree/snapshot.go:46-70 | on a well-formed snapshot the walk meets no missing or corrupt tree |
| `Snapshots.WalkFailsIff` | clients/go/fstree/snapshot.go:46-70 | on any acyclic snapshot the walk fails if and only if a way down from the root through directories ends at a tree that is missing or cannot be decoded, and its error is that of such a tree |
| `Snapshots.FileAtIff` | clients/go/fstree/snapshot.go:86-131 | on a well-formed snapshot a path gives an entry if and only if the path is not empty, the walk visits that entry there, and, for a file, its content is known and opens |
| `Snapshots.FileAtFails` | clients/go/fstree/snapshot.go:86-131 | otherwise the error says which: an empty path, something on the way that is no directory, nothing there, or a file whose content is unknown or does not open |
| `Paths.SplitPath` | clients/go/fstree/snapshot.go:135-157 | the pieces cut out of a path are its components after lexical cleaning |
| `Paths.SplitSlashes` | clients/go/fstree/snapshot.go:143-156 | the index loop keeps exactly the pieces between slashes that are neither empty nor a dot |
| `Paths.CleanIsSplit` | clients/go/fstree/snapshot.go:135-157 | cutting a cleaned path at its slashes and dropping empty and dot pieces gives back its components |
| `Paths.SplitInvertsJoinIff` | clients/go/fstree/snapshot.go:135-157 | splitting inverts joining if and only if no component is empty, a dot or slashed, and dot-dots stand in front only |
| `Paths.JoinCleanAdds` | clients/go/fstree/snapshot.go:52-56 | joining a clean prefix and a good name adds one component and nothing else |
| `Paths.DotDotTakesOne` | clients/go/fstree/snapshot.go:135-157 | a dot-dot at the end of any path takes exactly its last component away, nothing at the root, and stays when there is nothing to take |
| `Paths.DotIsNothing` | clients/go/fstree/snapshot.go:135-157 | a dot or a further slash at the end of any path changes nothing |
| `SnapshotDiffs.Diff` | clients/go/fstree/snapshot.go:161-223 | equal roots give an empty difference without a walk; otherwise the first walk that fails gives its error, and Added, Removed and Modified list, each path once, what is only new, only old, and in both under different hashes |
| `SnapshotDiffs.CollectPaths` | clients/go/fstree/snapshot.go:175-208 | every file and link by path, a later visit winning |
| `SnapshotDiffs.SeparatesIffExactPatch` | clients/go/fstree/snapshot.go:161-223 | three lists are those of a difference if and only if they are pairwise disjoint, name no unchanged path, and take the old map to the new one |
| `SnapshotDiffs.DiffIsExactPatch` | clients/go/fstree/snapshot.go:161-223 | between content-addressed snapshots without colliding digests the result is that exact patch, the early return on equal roots included, and it is empty if and only if no leaf changed |
| `SnapshotDiffs.SameWalk` | clients/go/fstree/snapshot.go:46-70 | by induction over the tree: under equal root hashes two content-addressed snapshots visit the same paths and entries |
| `SnapshotDiffs.EmptyIffUnchanged` | clients/go/fstree/snapshot.go:226-228 | nothing is named exactly when the two path maps are equal, so changes of mode and empty directories do not show |
| `SnapshotDiffs.LeavesAreVisited` | clients/go/fstree/snapshot.go:175-208 | the path map has a path under a hash if and only if the walk visits a file or a link with that hash there |
| `SnapshotDiffs.DiffNamesChanges` | clients/go/fstree/snapshot.go:161-223 | on well-formed snapshots, in terms of the two walks: a path is Added if and only if only the new walk visits a file or link there, Removed if and only if only the old one does, and Modified if and only if both do under different hashes |
| `SnapshotDiffs.FirstDiffAddsAll` | clients/go/fstree/snapshot.go:161-191 | without an old snapshot exactly the files and links of the walk are Added, and the old root is all zeros |
| `Captures.Capture` | clients/go/fstree/capture.go:35-88 | a missing root or one that is no directory is an error; otherwise the snapshot and the counters are those the builder reaches from nothing |
| `Captures.Builder.BuildTree` | clients/go/fstree/capture.go:107-177 | builds the tree of a directory as specified, resolvable or not, with the visited places restored on every return and, when it only fails for this directory, no trace left in the builder; it terminates because the places on the stack grow, or else the path does |
| `Captures.Builder.BuildEntry` | clients/go/fstree/capture.go:180-252 | a link, directory or file becomes an entry, with limit before size before content, and each map and counter updated for its kind only |
| `Captures.Builder.BuildListed` | clients/go/fstree/capture.go:131-157 | exclusion and a failing stat leave an entry out before anything is built; stat is asked when links are followed and lstat otherwise, which `CaptureFiles.StatIsIgnored` and `CaptureFiles.EntriesIff` pin down |
| `Captures.Builder.StoreTree` | clients/go/fstree/capture.go:164-176 | the serialised entries are stored under their digest, which is returned |
| `CaptureMeaning.DirMeans` | clients/go/fstree/capture.go:107-177 | whatever the builder has collected so far, the hash it returns is that of a tree computed from the files alone, each counter grows by the number of such entries below, the file count stays within the limit; it fails only with that tree's own error, or at the limit when the files below fill it, or overflow it if none is left out |
| `CaptureMeaning.ChildMeans` | clients/go/fstree/capture.go:180-252 | the same for one listed name |
| `CaptureMeaning.CountSorted` | clients/go/fstree/capture.go:159-162 | sorting the entries does not change what is counted below them |
| `CaptureOrder.OrderIrrelevant` | clients/go/fstree/capture.go:107-177 | two file systems that differ only in the order of their listings have equal trees, equal errors, equal contents below every directory, and leave out the same files |
| `CaptureLooks.CaptureFitsIff` | clients/go/fstree/capture.go:219-228 | in the order in which its listings come, a capture succeeds if and only if its tree can be built and the limit is not yet filled whenever a regular file is looked at; that is, if and only if none is looked at, or the files kept number fewer than the limit, or exactly as many and the last one looked at is kept |
| `CaptureLooks.DirLooks` | clients/go/fstree/capture.go:107-177 | the same for any directory and any number of files so far: it is built if and only if the limit is not filled at any regular file looked at in it, and then the file count has grown by those kept, which are the files of its listing |
| `CaptureLooks.FittingCaptureFails` | clients/go/fstree/capture.go:219-228 | a directory, listed by name, whose one file fits a limit of one file, and whose capture exceeds the limit at a larger file after it that would be skipped |
| `CaptureOrder.OrderDecidesOnlyAtTheLimit` | clients/go/fstree/capture.go:35-88 | the builder given the same files in another order of listings than `os.ReadDir` gives: it has the same root hash and totals, or stops at the file limit with a snapshot that fills it |
| `CaptureLimit.EveryOrderIff` | clients/go/fstree/capture.go:219-239 | robustness of the builder against the order of listings, which `os.ReadDir` fixes by name: it succeeds in every order if and only if the tree can be built and its files number fewer than the limit, or fill it at most and no regular file that is looked at is left out |
| `CaptureLimit.FailingOrder` | clients/go/fstree/capture.go:221-228 | where that does not hold, an order of listings in which the builder fails: the left-out file, and each directory on the way to it, comes last |
| `CaptureLimit.LeftOutLast` | clients/go/fstree/capture.go:221-228 | when a left-out file is the last thing looked at, a directory is built only if its files leave the limit unreached |
| `CaptureOrder.OrderCanDecide` | clients/go/fstree/capture.go:221-228 | the builder on two orders of one listing: by name it exceeds the limit, in the reverse order, which `os.ReadDir` does not return, it succeeds |
| `CaptureCycles.CyclicIff` | clients/go/fstree/capture.go:109-117 | a directory fails as cyclic if and only if a chain of listed directories leads from it, through places that are not being captured, to a place that is |
| `CaptureCycles.RootCyclicIff` | clients/go/fstree/capture.go:107-177 | the tree of a root is cyclic if and only if some chain of listed, unexcluded directories below it leads back to the real path of a directory it has passed, the root included |
| `CaptureCycles.CycleEndsCapture` | clients/go/fstree/capture.go:149-157 | a capture that fails as cyclic has such a chain, and with such a chain every capture fails, as cyclic or before that at the file limit: cycles are not skipped |
| `CaptureCycles.SelfLinkStops` | clients/go/fstree/options.go:45-53 | a directory whose one link leads back to it is such a file system: when links are followed, its capture ends as cyclic |
| `NameOrder.SortIsSorted` | clients/go/fstree/capture.go:159-162 | sorting keeps exactly the entries and puts the names in strict order |
| `NameOrder.OrderIsUnique` | clients/go/fstree/capture.go:159-162 | there is only one sorted order of a set of entries, so equal directories serialise equally |
| `CaptureSealed.CaptureIsClosed` | clients/go/fstree/capture.go:35-88 | after a successful capture every entry's content is in the map of its kind, every tree and link lies under its digest, every file reference leads to a file with that content, names are good and unique, and the file count is within the limit |
| `CaptureSealed.DirSeals` | clients/go/fstree/capture.go:107-177 | building any directory keeps all of this and never drops a stored hash |
| `CaptureWalk.CaptureThenWalk` | clients/go/fstree/capture.go:35-88 | if no two written trees share a digest, a capture is acyclic and walking it visits exactly what the file system lists below the root, every directory followed by its content, in order of names |
| `CaptureWalk.CaptureThenLookup` | clients/go/fstree/snapshot.go:86-131 | a path leads to an entry of a capture exactly when the file system lists that entry there |
| `CaptureWalk.CapturesThenDiff` | clients/go/fstree/snapshot.go:161-223 | the difference of two captures is the exact patch between the two listings of files and links |
| `CaptureWalk.DirFills` | clients/go/fstree/capture.go:164-176 | without colliding digests no stored tree is ever overwritten, all trees below a directory are stored, and each refers only to trees stored before it |
| `CaptureWalk.WalkIsListing` | clients/go/fstree/snapshot.go:46-70 | walking a stored directory visits the listing of that directory |
| `CaptureFiles.StatIsIgnored` | clients/go/fstree/capture.go:139-143 | a capture that does not follow links has the same result, errors and counters included, whatever links lead to |
| `CaptureFiles.LstatIsIgnored` | clients/go/fstree/options.go:44-53 | a capture that follows links has the same result whatever is said about the links themselves |
| `CaptureFiles.EntriesIff` | clients/go/fstree/capture.go:126-252 | an entry is in the tree of a directory if and only if some listed name deserves it: it is not excluded under its relative path, and the entry has its name and mode and is a link with the length and digest of the target, a directory with the digest of its own tree, or a file within the maximum size with the digest of its content |
| `CaptureFiles.LinkStaysLink` | clients/go/fstree/capture.go:139-203 | without following links, a listed and unexcluded link gets an entry that is a link under the digest of its target text, in the tree and in the listing of the capture |
| `CaptureFiles.ExcludedIsAbsent` | clients/go/fstree/capture.go:131-134 | no path of a capture starts with a chain of listed names of which one is excluded, so neither an excluded name nor anything below it is captured |
| `CaptureFiles.CapturesNameChanges` | clients/go/fstree/snapshot.go:161-223 | the difference of two captures names exactly the paths at which the listings of files and links differ, told apart as in `SnapshotDiffs.DiffNamesChanges` |
| `CaptureFiles.ListedKinds` | clients/go/fstree/capture.go:180-252 | whatever is captured is a file, a directory or a link |
| `Delivery.DeliveryWorker.RunLoop` | cxtx/src/delivery.rs:109-167 | a run of the loop is a run of the step function, turn by turn, until it stops |
| `Delivery.DeliveryWorker.RunOnce` | cxtx/src/delivery.rs:109-167 | one turn of the loop: stop, wait for a message, or drain the inbox and try the front item; and the exact time it sleeps, which is nothing except after a failure |
| `Delivery.DeliveryWorker.DeliverFront` | cxtx/src/delivery.rs:127-163 | a success pops the front and may queue or complete the recovery marker, without a sleep; a failure keeps it, enters degraded mode, sleeps for the delay or, with a deadline, for the time left if that is less, and doubles the delay |
| `Delivery.DeliveryWorker.ProcessItem` | cxtx/src/delivery.rs:189-212 | an append without a context fails before the network is used; a created context is remembered |
| `Delivery.DeliveryWorker.MaybeFinishShutdown` | cxtx/src/delivery.rs:232-263 | finishes exactly when shutdown was requested and the queue is empty or the deadline has passed |
| `Delivery.ConservesAndOrders` | cxtx/src/delivery.rs:109-165 | in every reachable state the delivered items followed by the queue are everything ever pushed, in order |
| `Delivery.MarkersAlternate` | cxtx/src/delivery.rs:131-230 | over every run the degraded and recovered markers alternate, starting with degraded; degraded without a pending recovery marker means work is left; a healthy worker has no undelivered marker |
| `Delivery.LeavesDegradedOnlyWhenDelivered` | cxtx/src/delivery.rs:139-151 | degraded mode ends only when everything ever pushed has been delivered, both markers of the outage included |
| `Delivery.RetryDelay` | cxtx/src/delivery.rs:131-163 | after k failures in a row the delay is min(250 * 2^k, 5000) milliseconds |
| `Delivery.FailureSleeps` | cxtx/src/delivery.rs:152-163 | in every reachable state, a turn of the loop whose front item fails after k failures since the last success sleeps exactly min(250 * 2^k, 5000) milliseconds, or until the shutdown deadline if that is sooner, and not at all once it has passed; no other turn sleeps |
| `Delivery.StopsIff` | cxtx/src/delivery.rs:232-263 | the worker stops if and only if the channel is closed under an empty queue, or shutdown was requested and the queue is empty or the deadline has come; it then changes nothing but that the request is answered |
| `Delivery.FailureMarks` | cxtx/src/delivery.rs:214-230 | a failure keeps every queued item, and the first one of an outage adds a degraded marker with the length the queue had |
| `Delivery.SuccessMarks` | cxtx/src/delivery.rs:131-151 | a success takes exactly the front item; it queues the recovery marker, or ends the outage, exactly when that emptied the queue of a degraded worker without, or with, the marker being under way |
| `Delivery.ContextIsTheAnswer` | cxtx/src/delivery.rs:189-200 | the context used is the answer to the last creation that went through |
| `Delivery.AppendsWaitForContext` | cxtx/src/delivery.rs:189-212 | an append is tried without a context only if it was the first item ever pushed, and then nothing is ever delivered |
| `Delivery.DrainedShutdown` | cxtx/src/delivery.rs:232-263 | a worker that stops before its deadline has delivered everything pushed at any earlier moment, so everything before the shutdown message |
| `Delivery.Drains` | cxtx/src/delivery.rs:109-165 | once nothing fails any more the queue empties in exactly the number of turns stated, everything is delivered, and the worker ends degraded if and only if its recovery marker was pending and nothing, or a context creation, stood last in the queue |
| `Delivery.StuckDegraded` | cxtx/src/delivery.rs:131-151 | the exception is reachable: degraded with an empty queue |
| `Delivery.NeverStuckWithOneCreation` | cxtx/src/lib.rs:110-127 | when the only context creation ever pushed is the first item, a degraded worker always has work left, and ends healthy once nothing fails any more |
| `EventStream.ReadEventStream` | clients/go/subscribe.go:202-301 | the line loop emits, line by line, the events and the final error that the specification reads off the stream, the size cap and the end of the stream included |
| `EventStream.RoundTrip` | clients/go/subscribe.go:202-301 | printed events are read back exactly and in order, however each line ends, wherever comments stand, and with blank lines between events |
| `EventStream.RoundTripIff` | clients/go/subscribe.go:202-301 | printing and reading back a list is the identity if and only if every event has a non-empty type, non-empty data within the cap, and no line feed in type or id and no carriage return at the end of type, id or a line of data |
| `EventStream.ReadEmitsPrintable` | clients/go/subscribe.go:211-231 | whatever the stream, only such events are emitted |
| `EventStream.FeedClean` | clients/go/subscribe.go:252-263 | comments, and blank lines after the end of an event, change nothing |
| `EventStream.UnfinishedIsDropped` | clients/go/subscribe.go:246-248 | a stream that ends right after a complete line drops the event it was in: whatever came before, complete lines after the last blank one emit nothing |
| `EventStream.BrokenLineEnds` | clients/go/subscribe.go:294-299 | a last line without a line feed, other than a comment, is read as if its line feed and a blank line followed |
| `EventStream.FieldAndValue` | clients/go/subscribe.go:268-276 | a line with a colon has the field before the first one and as its value what comes after, less one space; one without a colon is a field without a value |
| `EventStream.MalformedStops` | clients/go/subscribe.go:273-275 | wherever it stands, a line whose field is empty or holds a space or a tab ends the reading with that field, and nothing after it is emitted |
| `EventStream.TooLargeStops` | clients/go/subscribe.go:281-286 | a data line that takes the event over the limit ends the reading with the size reached |
| `TurnWire.EncodeGetLast` | server/src/main.rs:417-454 | the response is the count and, turn by turn, the little-endian fields, and the payload with its length only when payloads were asked for |
| `TurnWire.ParseTurnRecords` | clients/go/turn.go:148-214 | decodes count and records from the front and fails with the first field that is cut short |
| `TurnWire.Cursor.NextRecord` | clients/go/turn.go:160-210 | one record is decoded from what is left and the cursor moves past it |
| `TurnWire.Cursor.ReadFull` | clients/go/turn.go:160-186 | a number is read from exactly its bytes, or the read says whether nothing or too little was left |
| `TurnWire.ReadBackItem` | clients/go/turn.go:160-210 | a turn sent with its payload is decoded back, unless the payload and what follows are both empty |
| `TurnWire.RoundTrip` | clients/go/turn.go:148-214 | for all turns sent with payloads, decoding gives back every record with compression 0 and uses every byte, if and only if there is no turn or the last payload is not empty; otherwise it fails |
| `TurnWire.WithoutPayload` | server/src/main.rs:442-449 | a response of one turn sent without its payload cannot be decoded |
| `TurnWire.ItemLayout` | server/src/main.rs:417-454 | at which offset each field of a turn stands, and that a turn sent with its payload has compression 0 and the length of the payload |
| `TurnWire.U64Bytes` | server/src/main.rs:417-454 | a number is sent with its least significant byte first |
| `TurnWire.ShortReads` | clients/go/turn.go:188-206 | a buffer that the input cannot fill keeps zeros at its end, without an error |
| `SessionHistory.SessionRuntime.ObserveRequestHistory` | cxtx/src/session.rs:201-250 | emits a rewrite marker when the known history is not a prefix of the normalised one, then the items after the common prefix, and remembers the normalised history |
| `SessionHistory.SessionRuntime.AppendHistoryItem` | cxtx/src/session.rs:252-270 | one item is normalised, remembered and emitted under the next ordinal |
| `SessionHistory.SessionRuntime.EmitItems` | cxtx/src/session.rs:235-249 | the items of the suffix are emitted in order under consecutive ordinals |
| `SessionHistory.SessionRuntime.EmitAside` | cxtx/src/session.rs:129-199 | a turn outside the history takes an ordinal and leaves the history alone |
| `SessionHistory.ReplayReconstructs` | cxtx/src/session.rs:201-270 | after any interleaving of calls, folding the emitted batches - a marker cuts the log back to its new length less the items after it - gives the observed history |
| `SessionHistory.ObserveReplays` | cxtx/src/session.rs:201-250 | one batch takes the old history to the new one, and starts with a marker if and only if the old one is not a prefix |
| `SessionHistory.ReobserveIsSilent` | cxtx/src/session.rs:201-250 | observing the same history again emits nothing and changes nothing |
| `SessionHistory.ObserveEmits` | cxtx/src/session.rs:201-250 | after any run of calls, an observation emits the items from the first one on that differs in meaning from what the calls made known - answers mean the same when text and tool calls agree, other items when they are equal - unchanged and in order, and before them a marker if and only if known items are left behind |
| `SessionHistory.SilentIff` | cxtx/src/session.rs:306-325 | after any run of calls, an observation emits nothing if and only if it is item by item of the same meaning as what is known |
| `SessionHistory.ReturnedItem` | cxtx/src/session.rs:313-325 | after any run, an item that was appended and comes back in the next request is not emitted again if and only if, for an answer, text and tool calls are the same, whatever model and finish reason; for any other item, it is equal |
| `SessionHistory.ObserveIsMinimal` | cxtx/src/session.rs:306-311 | no batch that replays to the new history has fewer history items |
| `SessionHistory.PrefixIff` | cxtx/src/session.rs:306-311 | the common prefix is the whole of the left history exactly when that is a prefix of the right one |
| `SessionHistory.OrdinalsAreConsecutive` | cxtx/src/session.rs:301-304 | over any run the ordinals count up by one from the first |
| `SessionHistory.FlatLogIsAmbiguous` | cxtx/src/session.rs:201-270 | two runs of one session, an answer appended in the one and observed in the other, with the same flat log and different histories |
| `SessionHistory.FlatLogAndLengthDetermine` | cxtx/src/session.rs:201-270 | the flat log and the length of the history determine the history, so two runs with the same flat log have the same history if and only if their histories are equally long |
| `S3Sync.Syncer.DoSync` | server/src/s3_sync.rs:271-323 | a synchronisation, with unreadable sizes and directories among its outcomes, is a run of the machine; and if nothing fails or changes meanwhile, then for each target, whatever object there was: it leaves an exact copy if and only if the length made the file stale or the object was a copy, and a prefix if and only if the file was stale or the object was a prefix |
| `S3Sync.Syncer.SyncTarget` | server/src/s3_sync.rs:283-312 | a store file is uploaded when it is longer than the saved size and a registry file when its length differs; after a failed upload the saved size stays, so it is tried again |
| `S3Sync.Syncer.ScanTargets` | server/src/s3_sync.rs:276-350 | the targets are handled in turn: in quiet each stale one gets its object and its size on record and no other does; a failing registry file or an unreadable size ends the synchronisation before the manifest |
| `S3Sync.Syncer.PublishAndSave` | server/src/s3_sync.rs:445-475 | the manifest is written before the state is saved, and a failure of either leaves the other consistent |
| `S3Sync.AlwaysSafe` | server/src/s3_sync.rs:271-350 | over every run of local changes of any kind, synchronisations, failures, crashes and restarts: an object is a prefix of its file unless, since its last upload, the file was replaced by contents that the object was no prefix of; for a file never cut short if and only if so; and each object of such a file is at least as long as the saved state and the manifest say |
| `S3Sync.AppendOnlyIsSafe` | server/src/s3_sync.rs:271-350 | over every run on which files are only appended to, every object is a prefix of its file and covers every recorded size |
| `S3Sync.SavedIsPublished` | server/src/s3_sync.rs:304-323 | over every run, a state is saved only after a manifest with the same sizes was written |
| `S3Sync.TargetsAre` | server/src/s3_sync.rs:276-350 | every store file, and after them every listed bundle of the registry, is looked at |
| `S3Sync.CopiedOrStale` | server/src/s3_sync.rs:284-288 | a file that is not empty, was never cut, and was not replaced since its last upload by contents its object was no prefix of, is stale or has an exact copy already |
| `S3Sync.RestoreRecovers` | server/src/s3_sync.rs:164-225 | what is restored is a prefix of what was lost unless that was replaced since its last upload by contents the object was no prefix of, and a listed file that was never cut and whose download succeeds has at least the listed size |
| `S3Sync.RestoredIff` | server/src/s3_sync.rs:164-225 | a file comes back if and only if there is a manifest, its object can be downloaded, and it is listed there or in the registry; then as its object is |
| `S3Sync.RestoredIsSafeIff` | server/src/s3_sync.rs:164-225 | after a restore from any backup, reached by a run or not, every object is a prefix of its local file if and only if every object came back |
| `S3Sync.ReplacedHealsIff` | server/src/s3_sync.rs:284-303 | after a file is replaced by any contents, a look and a successful upload leave a prefix if and only if the new length makes the file stale or the old object is a prefix all the same |
| `S3Sync.StaysMissed` | server/src/s3_sync.rs:271-350 | a file that is not stale keeps the object it has over every run that neither changes the file nor loses the saved state |
| `S3Sync.IndexRewriteIsMissed` | server/src/turn_store/mod.rs:309-317 | a reachable state: after a turn index was backed up, a restart writes its two entries in the other order, and over every later run that leaves the index and the saved state alone the object is no prefix of it |
| `SessionTracker.SessionTracker.RegisterSession` | server/src/metrics.rs:44-56 | the session starts without contexts, replacing one of the same id |
| `SessionTracker.SessionTracker.AssociateContext` | server/src/metrics.rs:75-85 | the context belongs to the session, and is listed there if the session is known |
| `SessionTracker.SessionTracker.UnregisterSession` | server/src/metrics.rs:88-99 | the listed contexts are returned and lose their owner |
| `SessionTracker.SessionTracker.SessionForContext` | server/src/metrics.rs:102-107 | the registered session that owns the context, if any |
| `SessionTracker.RegisterIff` | server/src/metrics.rs:44-56 | registering keeps the two maps inverse if and only if it forgets no listed context |
| `SessionTracker.AddContextIff` | server/src/metrics.rs:75-85 | adding keeps them inverse if and only if the session is registered and no other session owns the context |
| `SessionTracker.UnregisterExact` | server/src/metrics.rs:88-99 | unregistering keeps them inverse, returns exactly the contexts of that session, and takes away that session, those contexts and nothing else |
| `SessionTracker.LiveIff` | server/src/main.rs:253-305 | over every interleaving of connections the maps are inverse, and a context is live if and only if the connection that created it has not been closed cleanly |
| `SessionTracker.CloseReturnsCreated` | server/src/main.rs:494-500 | closing a connection hands back exactly the contexts it created |
| `SessionTracker.FirstGreetingNames` | server/src/main.rs:253-275 | a connection is registered under the tag of its first greeting, or without one when it creates a context first; later greetings change nothing |
| `SessionTracker.EndedIsOver` | server/src/main.rs:494-500 | whatever happens later, a connection that has ended creates nothing more, and one that ended uncleanly leaves its session and contexts as they were |

## Left out

- Integer widths: depths, ids and byte totals are naturals, without the wrap-around of u32 and u64; only the
  wire formats and the payload length check have their widths.
- Foreign code: BLAKE3, zstd, msgpack and JSON are functions that are given. Where distinct digests matter, the
  theorem says that no two of the blobs at hand collide; msgpack decodes what it encoded.
- Library functions: lexical path cleaning, sorting and string trimming are modelled as functions on values;
  the sort is not in place. Characters stand for the bytes of paths, names and event streams.
- The file system during one capture is fixed, resolves links to finitely many places, and does not open a path of
  unlimited length that it cannot resolve. Timestamps, durations and the matching of exclusion patterns are not
  modelled; exclusion is a function that is given. Making the root path absolute is left to the caller.
- The file system is abstract in the size total: the attached roots, tree entries and raw lengths are maps.
- Walk callbacks that fail, event consumers that fail, read errors and cancellation in the event stream.
- Child and descendant queries read the parent index; searching by other fields and labels is not modelled.
- Network, disk and clock are parameters: each request brings its own success or failure and each step its
  time. Ledger files, log lines, event publishing, reconnecting and back-pressure are not modelled.
- The follower's channels: a round says how many turns the consumer takes before it cancels; the errors it
  reports on the side are not delivered.
- Session activity times, client tags by session, and the other metrics.
- S3: listing and metadata requests and the lock of the sync loop; local files are never deleted while the program
  runs; a download that fails leaves no file.
- Files on disk of the turn and blob stores: the stores are maps, and reopening rebuilds the cache from them.
- The registry, projections, HTTP and web front end, and the other clients.
- TurnWire.WithoutPayload: speaks of a response of one turn, because with more turns the decoder reads the start of
  the next turn as a length, and what comes of that depends on its id.

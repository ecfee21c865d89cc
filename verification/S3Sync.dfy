/** Backup of local files to an object store, with failing requests, crashes at any point, local changes in
    between, and the restore after the disk is lost. The store files grow at the end while the program runs;
    when it starts it rewrites its turn index and cuts damaged tails. */
module S3Sync {
  import opened Basics

  type File = string

  const INDEX: File := "turns/turns.idx"

  const SYNC_FILES: seq<File> := [
    "blobs/blobs.pack", "blobs/blobs.idx", "turns/turns.log", INDEX, "turns/turns.meta", "turns/heads.tbl"]

  /** The local files, the objects, the manifest object, and the sizes in the saved sync state. Two history
      variables: the files replaced since their last upload by contents their object is no prefix of; and
      those ever replaced by something shorter. */
  datatype Backup = Backup(
    local: map<File, Bytes>, remote: map<File, Bytes>, manifest: Option<map<File, nat>>, saved: map<File, nat>,
    dirty: set<File>, cut: set<File>)

  /** What the rest of the program does to a file. */
  datatype Change = Grown(file: File, bytes: Bytes) | Replaced(file: File, contents: Bytes)

  /** A failed request may have taken effect all the same. */
  datatype Put = Done | Failed | FailedButApplied

  /** Writing the state file may fail, or be cut short and leave a file that loads as empty. */
  datatype Write = Saved | NotSaved | Corrupted

  /** Where a synchronisation stands: deciding about the next target, uploading it with the size seen
      before, writing the manifest, or saving the state. */
  datatype Phase =
    | Idle
    | Scanning(sizes: map<File, nat>, targets: seq<File>, synced: nat)
    | Uploading(sizes: map<File, nat>, targets: seq<File>, synced: nat, size: nat)
    | Publishing(sizes: map<File, nat>)
    | Saving(sizes: map<File, nat>)

  datatype Machine = Machine(backup: Backup, phase: Phase)

  /** `Stop` ends a synchronisation early: at a crash, or at a size or a directory that cannot be read. */
  datatype Event =
    | Local(change: Change)
    | Begin(registry: seq<File>)
    | Look
    | Upload(put: Put)
    | Publish(put: Put)
    | Save(write: Write)
    | Stop

  function Size(sizes: map<File, nat>, f: File): nat {
    if f in sizes then sizes[f] else 0
  }

  /** The object of a file, if there is one, is a prefix of the file. */
  predicate IsPrefix(local: map<File, Bytes>, remote: map<File, Bytes>, f: File) {
    f in remote ==> f in local && remote[f] <= local[f]
  }

  function Apply(b: Backup, change: Change): Backup {
    match change
    case Grown(f, bytes) => b.(local := b.local[f := (if f in b.local then b.local[f] else []) + bytes])
    case Replaced(f, contents) =>
      var local := b.local[f := contents];
      b.(local := local,
         dirty := if IsPrefix(local, b.remote, f) then b.dirty - {f} else b.dirty + {f},
         cut := if f in b.local && |contents| < |b.local[f]| then b.cut + {f} else b.cut)
  }

  function Targets(registry: seq<File>): seq<File> {
    SYNC_FILES + registry
  }

  /** A store file is uploaded once it is longer than the size on record, any other file - a bundle of the
      registry - once its length differs. */
  predicate Stale(f: File, size: nat, last: nat) {
    if f in SYNC_FILES then size > last else size != last
  }

  function LookAt(b: Backup, p: Phase): Phase
    requires p.Scanning?
  {
    if p.targets == [] then if p.synced > 0 then Publishing(p.sizes) else Idle
    else
      var f := p.targets[0];
      if f in b.local && Stale(f, |b.local[f]|, Size(p.sizes, f))
      then Uploading(p.sizes, p.targets, p.synced, |b.local[f]|)
      else Scanning(p.sizes, p.targets[1..], p.synced)
  }

  /** The file is read in full when it is uploaded, which may be after it has changed. A failed upload of a
      registry file ends the synchronisation. */
  function UploadTo(b: Backup, p: Phase, put: Put): Machine
    requires p.Uploading? && p.targets != []
  {
    var f := p.targets[0];
    var b' := if put.Failed? || f !in b.local then b
              else b.(remote := b.remote[f := b.local[f]], dirty := b.dirty - {f});
    if f !in b.local || !put.Done? then
      Machine(b', if f in SYNC_FILES then Scanning(p.sizes, p.targets[1..], p.synced) else Idle)
    else Machine(b', Scanning(p.sizes[f := p.size], p.targets[1..], p.synced + 1))
  }

  /** Events that do not fit the phase change nothing. */
  function Step(m: Machine, e: Event): Machine {
    match e
    case Local(change) => m.(backup := Apply(m.backup, change))
    case Begin(registry) =>
      if m.phase.Idle? then m.(phase := Scanning(m.backup.saved, Targets(registry), 0)) else m
    case Look => if m.phase.Scanning? then m.(phase := LookAt(m.backup, m.phase)) else m
    case Upload(put) =>
      if m.phase.Uploading? && m.phase.targets != [] then UploadTo(m.backup, m.phase, put) else m
    case Publish(put) =>
      if !m.phase.Publishing? then m
      else
        Machine(if put.Failed? then m.backup else m.backup.(manifest := Some(m.phase.sizes)),
                if put.Done? then Saving(m.phase.sizes) else Idle)
    case Save(write) =>
      if !m.phase.Saving? then m
      else
        Machine(match write
                case Saved => m.backup.(saved := m.phase.sizes)
                case NotSaved => m.backup
                case Corrupted => m.backup.(saved := map[]),
                Idle)
    case Stop => m.(phase := Idle)
  }

  function Run(m: Machine, events: seq<Event>): Machine
    decreases |events|
  {
    if events == [] then m else Run(Step(m, events[0]), events[1..])
  }

  const START: Machine := Machine(Backup(map[], map[], None, map[], {}, {}), Idle)

  // ---- Safety ----

  /** Each recorded size is that of an object at least as long, unless the file was cut. */
  ghost predicate Covered(sizes: map<File, nat>, remote: map<File, Bytes>, cut: set<File>) {
    forall f :: f in sizes && f !in cut ==> f in remote && sizes[f] <= |remote[f]|
  }

  /** What is known about the object of one file. */
  ghost predicate FileOk(b: Backup, f: File) {
    && (f in b.remote ==> f in b.local)
    && (f !in b.dirty ==> IsPrefix(b.local, b.remote, f))
    && (f !in b.cut && f in b.remote ==> |b.remote[f]| <= |b.local[f]|)
    && (f !in b.cut && f in b.dirty ==> !IsPrefix(b.local, b.remote, f))
  }

  ghost predicate Safe(b: Backup) {
    && (forall f :: FileOk(b, f))
    && Covered(b.saved, b.remote, b.cut)
    && (b.manifest.Some? ==> Covered(b.manifest.value, b.remote, b.cut))
  }

  ghost predicate UploadOk(m: Machine) {
    m.phase.Uploading? ==>
      && m.phase.targets != [] && m.phase.targets[0] in m.backup.local
      && (m.phase.targets[0] !in m.backup.cut ==> m.phase.size <= |m.backup.local[m.phase.targets[0]]|)
  }

  ghost predicate Inv(m: Machine) {
    && Safe(m.backup) && UploadOk(m)
    && (!m.phase.Idle? ==> Covered(m.phase.sizes, m.backup.remote, m.backup.cut))
  }

  lemma ApplyKeepsFile(b: Backup, change: Change, f: File)
    requires FileOk(b, f)
    ensures FileOk(Apply(b, change), f)
  {
  }

  lemma ApplyKeepsInv(m: Machine, change: Change)
    requires Inv(m)
    ensures Inv(m.(backup := Apply(m.backup, change)))
  {
    var b := Apply(m.backup, change);
    forall f ensures FileOk(b, f) {
      assert FileOk(m.backup, f);
      ApplyKeepsFile(m.backup, change, f);
    }
    hide FileOk, IsPrefix;
    CoveredStays(m.backup.saved, m.backup.remote, b.remote, m.backup.cut, b.cut);
    if !m.phase.Idle? {
      CoveredStays(m.phase.sizes, m.backup.remote, b.remote, m.backup.cut, b.cut);
    }
    if b.manifest.Some? {
      CoveredStays(b.manifest.value, m.backup.remote, b.remote, m.backup.cut, b.cut);
    }
  }

  lemma CoveredStays(
    sizes: map<File, nat>, before: map<File, Bytes>, after: map<File, Bytes>, cut: set<File>, cut': set<File>)
    requires Covered(sizes, before, cut) && cut <= cut'
    requires forall f :: f in before && f !in cut' ==> f in after && |before[f]| <= |after[f]|
    ensures Covered(sizes, after, cut')
  {
  }

  lemma UploadKeepsInv(m: Machine, put: Put)
    requires Inv(m) && m.phase.Uploading?
    ensures Inv(UploadTo(m.backup, m.phase, put))
  {
    var b, m' := m.backup, UploadTo(m.backup, m.phase, put);
    var up := m.phase.targets[0];
    forall f ensures FileOk(m'.backup, f) {
      assert FileOk(b, f);
    }
    assert FileOk(b, up);
    hide FileOk, IsPrefix;
    CoveredStays(b.saved, b.remote, m'.backup.remote, b.cut, b.cut);
    CoveredStays(m.phase.sizes, b.remote, m'.backup.remote, b.cut, b.cut);
    if b.manifest.Some? {
      CoveredStays(b.manifest.value, b.remote, m'.backup.remote, b.cut, b.cut);
    }
  }

  lemma StepKeepsInv(m: Machine, e: Event)
    requires Inv(m)
    ensures Inv(Step(m, e))
  {
    match e {
      case Local(change) => ApplyKeepsInv(m, change);
      case Upload(put) => if m.phase.Uploading? { UploadKeepsInv(m, put); }
      case Publish(put) => SafeRecords(m.backup, m.phase);
      case Save(write) => SafeRecords(m.backup, m.phase);
      case _ => hide Safe, Covered;
    }
  }

  /** The sizes of a phase can be recorded. */
  lemma SafeRecords(b: Backup, p: Phase)
    requires Safe(b) && (!p.Idle? ==> Covered(p.sizes, b.remote, b.cut))
    ensures !p.Idle? ==> Safe(b.(manifest := Some(p.sizes))) && Safe(b.(saved := p.sizes))
    ensures Safe(b.(saved := map[]))
  {
    var b1, b2 := if p.Idle? then b else b.(manifest := Some(p.sizes)), if p.Idle? then b else b.(saved := p.sizes);
    var b3 := b.(saved := map[]);
    forall f ensures FileOk(b1, f) && FileOk(b2, f) && FileOk(b3, f) {
      assert FileOk(b, f);
    }
    hide FileOk;
  }

  lemma {:induction false} RunKeepsInv(m: Machine, events: seq<Event>)
    requires Inv(m)
    ensures Inv(Run(m, events))
    decreases |events|
  {
    if events != [] {
      StepKeepsInv(m, events[0]);
      hide Inv, Step;
      RunKeepsInv(Step(m, events[0]), events[1..]);
    }
  }

  /** Over any run of local changes, synchronisations, failures, crashes and restarts: the object of each file
      is a prefix of it unless the file was replaced under it since its last upload; for a file that was
      never cut short, exactly then; and each object of such a file is at least as long as the saved state
      and the manifest say. */
  lemma AlwaysSafe(events: seq<Event>)
    ensures var b := Run(START, events).backup;
            && (forall f :: f !in b.dirty ==> IsPrefix(b.local, b.remote, f))
            && (forall f :: f !in b.cut ==> (IsPrefix(b.local, b.remote, f) <==> f !in b.dirty))
            && Covered(b.saved, b.remote, b.cut) && (b.manifest.Some? ==> Covered(b.manifest.value, b.remote, b.cut))
  {
    assert Inv(START);
    RunKeepsInv(START, events);
    var b := Run(START, events).backup;
    hide Run, Covered;
    forall f ensures FileOk(b, f) && (f !in b.cut ==> (IsPrefix(b.local, b.remote, f) <==> f !in b.dirty)) {
      assert FileOk(b, f);
    }
    hide FileOk;
    assert forall f :: f !in b.dirty ==> IsPrefix(b.local, b.remote, f) by { PrefixUnlessDirty(b); }
  }

  lemma PrefixUnlessDirty(b: Backup)
    requires Safe(b)
    ensures forall f :: f !in b.dirty ==> IsPrefix(b.local, b.remote, f)
  {
    forall f | f !in b.dirty ensures IsPrefix(b.local, b.remote, f) {
      assert FileOk(b, f);
    }
  }

  lemma {:induction false} OnlyGrown(m: Machine, events: seq<Event>)
    requires forall e :: e in events && e.Local? ==> e.change.Grown?
    requires m.backup.dirty == {} == m.backup.cut
    ensures Run(m, events).backup.dirty == {} == Run(m, events).backup.cut
    decreases |events|
  {
    if events != [] {
      assert events[0] in events;
      StepOnlyGrown(m, events[0]);
      hide Step;
      OnlyGrown(Step(m, events[0]), events[1..]);
    }
  }

  lemma StepOnlyGrown(m: Machine, e: Event)
    requires (e.Local? ==> e.change.Grown?) && m.backup.dirty == {} == m.backup.cut
    ensures Step(m, e).backup.dirty == {} == Step(m, e).backup.cut
  {
  }

  /** When files are only appended to, every object is a prefix of its file and covers every record. */
  lemma AppendOnlyIsSafe(events: seq<Event>)
    requires forall e :: e in events && e.Local? ==> e.change.Grown?
    ensures var b := Run(START, events).backup;
            && (forall f :: IsPrefix(b.local, b.remote, f))
            && Covered(b.saved, b.remote, {}) && (b.manifest.Some? ==> Covered(b.manifest.value, b.remote, {}))
  {
    AlwaysSafe(events);
    OnlyGrown(START, events);
    hide Run, Covered, IsPrefix;
  }

  // ---- Losing the disk ----

  /** Restoring into an empty directory: the objects the manifest lists, as far as they can be downloaded,
      and the registry objects that can be. Nothing is restored without a manifest. */
  function Restore(b: Backup, downloads: set<File>, registry: set<File>): map<File, Bytes> {
    if b.manifest.None? then map[]
    else map f | f in b.remote && f in downloads && (f in b.manifest.value || f in registry) :: b.remote[f]
  }

  /** A file comes back iff there is a manifest, its object can be downloaded, and it is listed in the manifest
      or among the registry objects; and then as its object is. */
  lemma RestoredIff(b: Backup, downloads: set<File>, registry: set<File>, f: File)
    ensures var restored := Restore(b, downloads, registry);
            && (f in restored <==> b.manifest.Some? && f in b.remote && f in downloads && (f in b.manifest.value || f in registry))
            && (f in restored ==> restored[f] == b.remote[f])
  {
  }

  /** What is restored is a prefix of what was lost, except for files replaced since their last upload; and
      each file the manifest lists comes back with at least the size it says when its download succeeds,
      except for files that were cut. */
  lemma RestoreRecovers(events: seq<Event>, downloads: set<File>, registry: set<File>)
    ensures var b := Run(START, events).backup;
            var restored := Restore(b, downloads, registry);
            && (forall f :: f in restored && f !in b.dirty ==> f in b.local && restored[f] <= b.local[f])
            && (b.manifest.Some? ==> forall f :: f in b.manifest.value && f in downloads && f !in b.cut ==>
                  f in restored && |restored[f]| >= b.manifest.value[f])
  {
    AlwaysSafe(events);
  }

  /** After a restore, whatever the backup, every object is a prefix of its local file iff every object was
      restored. Otherwise a later synchronisation replaces the object of a file that was left out. */
  lemma RestoredIsSafeIff(b: Backup, downloads: set<File>, registry: set<File>)
    ensures var restored := Restore(b, downloads, registry);
            (forall f :: IsPrefix(restored, b.remote, f)) <==> b.remote.Keys <= restored.Keys
  {
    var restored := Restore(b, downloads, registry);
    if forall f :: IsPrefix(restored, b.remote, f) {
      forall f | f in b.remote.Keys ensures f in restored.Keys {
        assert IsPrefix(restored, b.remote, f);
      }
    }
  }

  // ---- Replaced files: when the object catches up ----

  predicate Touches(e: Event, f: File) {
    e.Local? && e.change.file == f
  }

  /** The size on record for `f` is `size` wherever a synchronisation looks, and it is not uploading `f`. */
  ghost predicate Rests(m: Machine, f: File, size: nat) {
    && Size(m.backup.saved, f) == size
    && (!m.phase.Idle? ==> Size(m.phase.sizes, f) == size)
    && (m.phase.Uploading? && m.phase.targets != [] ==> m.phase.targets[0] != f)
    && f in m.backup.local && !Stale(f, |m.backup.local[f]|, size)
  }

  /** The file and its object. */
  function Pair(b: Backup, f: File): (Option<Bytes>, Option<Bytes>) {
    (if f in b.local then Some(b.local[f]) else None, if f in b.remote then Some(b.remote[f]) else None)
  }

  lemma StepRests(m: Machine, e: Event, f: File, size: nat)
    requires Rests(m, f, size) && !Touches(e, f) && e != Save(Corrupted)
    ensures Rests(Step(m, e), f, size) && Pair(Step(m, e).backup, f) == Pair(m.backup, f)
  {
    hide Stale, IsPrefix;
  }

  /** A file whose length does not make it stale keeps the object it has, over any run that does not change
      the file and does not lose the saved state. */
  lemma {:induction false} StaysMissed(m: Machine, events: seq<Event>, f: File, size: nat)
    requires Rests(m, f, size) && forall e :: e in events ==> !Touches(e, f) && e != Save(Corrupted)
    ensures Rests(Run(m, events), f, size) && Pair(Run(m, events).backup, f) == Pair(m.backup, f)
    decreases |events|
  {
    if events != [] {
      assert events[0] in events;
      StepRests(m, events[0], f, size);
      hide Rests, Pair, Step, Touches;
      StaysMissed(Step(m, events[0]), events[1..], f, size);
    }
  }

  // ---- A run on which the rewritten index is missed ----

  ghost predicate Reachable(m: Machine) {
    exists events :: m == Run(START, events)
  }

  lemma ReachStep(m: Machine, e: Event)
    requires Reachable(m)
    ensures Reachable(Step(m, e))
  {
    var events :| m == Run(START, events);
    RunConcat(START, events, [e]);
    RunOne(m, e);
    hide Run, Step;
    assert Step(m, e) == Run(START, events + [e]);
  }

  lemma LookSkips(b: Backup, sizes: map<File, nat>, i: nat, synced: nat)
    requires i < |SYNC_FILES| && SYNC_FILES[i] !in b.local
    ensures var m := Machine(b, Scanning(sizes, SYNC_FILES[i..], synced));
            Step(m, Look) == Machine(b, Scanning(sizes, SYNC_FILES[i + 1..], synced))
            && (Reachable(m) ==> Reachable(Step(m, Look)))
  {
    var m := Machine(b, Scanning(sizes, SYNC_FILES[i..], synced));
    assert SYNC_FILES[i..][1..] == SYNC_FILES[i + 1..];
    if Reachable(m) {
      ReachStep(m, Look);
    }
    hide Reachable;
  }

  /** The first synchronisation gets as far as the index, which is the only file. */
  lemma UpToIndex(all: Bytes)
    requires all != []
    ensures Reachable(Machine(Backup(map[INDEX := all], map[], None, map[], {}, {}),
                              Uploading(map[], SYNC_FILES[3..], 0, |all|)))
  {
    var b := Backup(map[INDEX := all], map[], None, map[], {}, {});
    assert Run(START, []) == START && [] + all == all;
    ReachStep(START, Local(Grown(INDEX, all)));
    assert Step(START, Local(Grown(INDEX, all))) == Machine(b, Idle);
    ReachStep(Machine(b, Idle), Begin([]));
    assert SYNC_FILES + [] == SYNC_FILES == SYNC_FILES[0..];
    LookSkips(b, map[], 0, 0);
    LookSkips(b, map[], 1, 0);
    LookSkips(b, map[], 2, 0);
    ReachStep(Machine(b, Scanning(map[], SYNC_FILES[3..], 0)), Look);
    hide Reachable;
    assert SYNC_FILES[3..][0] == INDEX;
  }

  /** It uploads the index and records its size. */
  lemma IndexIsSynced(all: Bytes)
    requires all != []
    ensures Reachable(Machine(Backup(map[INDEX := all], map[INDEX := all], Some(map[INDEX := |all|]), map[INDEX := |all|], {}, {}), Idle))
  {
    var sizes := map[INDEX := |all|];
    var b0 := Backup(map[INDEX := all], map[], None, map[], {}, {});
    var b1 := Backup(map[INDEX := all], map[INDEX := all], None, map[], {}, {});
    UpToIndex(all);
    ReachStep(Machine(b0, Uploading(map[], SYNC_FILES[3..], 0, |all|)), Upload(Done));
    assert SYNC_FILES[3..][1..] == SYNC_FILES[4..] && SYNC_FILES[3..][0] == INDEX && {} - {INDEX} == {};
    assert map[INDEX := all] == map[][INDEX := all];
    LookSkips(b1, sizes, 4, 1);
    LookSkips(b1, sizes, 5, 1);
    assert SYNC_FILES[6..] == [];
    hide Reachable, Stale, IsPrefix, Targets;
    RecordsSizes(b1, sizes);
  }

  /** With nothing left to look at, the sizes are published and saved. */
  lemma RecordsSizes(b: Backup, sizes: map<File, nat>)
    requires Reachable(Machine(b, Scanning(sizes, [], 1)))
    ensures Reachable(Machine(b.(manifest := Some(sizes), saved := sizes), Idle))
  {
    hide Reachable, Stale, IsPrefix, Targets;
    ReachStep(Machine(b, Scanning(sizes, [], 1)), Look);
    ReachStep(Machine(b, Publishing(sizes)), Publish(Done));
    ReachStep(Machine(b.(manifest := Some(sizes)), Saving(sizes)), Save(Saved));
  }

  /** After an index of two entries has been synchronised, a restart that writes them in the other order
      leaves an object that is no prefix of the index; and no later run repairs it unless the index changes
      or the saved state is lost. */
  lemma IndexRewriteIsMissed(a: Bytes, b: Bytes, later: seq<Event>)
    requires |a| == |b| && a != b
    requires forall e :: e in later ==> !Touches(e, INDEX) && e != Save(Corrupted)
    ensures exists m :: Reachable(m) && Pair(m.backup, INDEX) == (Some(b + a), Some(a + b))
                        && Pair(Run(m, later).backup, INDEX) == (Some(b + a), Some(a + b))
                        && !IsPrefix(Run(m, later).backup.local, Run(m, later).backup.remote, INDEX)
  {
    var all, again := a + b, b + a;
    var sizes := map[INDEX := |all|];
    var m0 := Machine(Backup(map[INDEX := all], map[INDEX := all], Some(sizes), sizes, {}, {}), Idle);
    var m1 := Step(m0, Stop);
    var m := Step(m1, Local(Replaced(INDEX, again)));
    IndexIsSynced(all);
    ReachStep(m0, Stop);
    ReachStep(m1, Local(Replaced(INDEX, again)));
    assert all[..|a|] == a && again[..|a|] == b;
    assert Pair(m.backup, INDEX) == (Some(again), Some(all));
    StaysMissed(m, later, INDEX, |all|);
    hide Reachable, Run;
  }

  /** How the size on record decides: after `f` is replaced by any contents, one look and a successful upload
      leave a prefix iff the new length makes the file stale, or the old object is a prefix all the same. */
  lemma ReplacedHealsIff(b: Backup, f: File, contents: Bytes, sizes: map<File, nat>, rest: seq<File>, synced: nat)
    ensures var b1 := Apply(b, Replaced(f, contents));
            var m := Run(Machine(b1, Scanning(sizes, [f] + rest, synced)), [Look, Upload(Done)]);
            IsPrefix(m.backup.local, m.backup.remote, f)
            <==> (var last := if f in sizes then sizes[f] else 0;
                  if f in SYNC_FILES then |contents| > last else |contents| != last)
                 || (f in b.remote ==> b.remote[f] <= contents)
  {
    var b1 := Apply(b, Replaced(f, contents));
    var m0 := Machine(b1, Scanning(sizes, [f] + rest, synced));
    var m1 := Step(m0, Look);
    assert ([f] + rest)[1..] == rest && [Look, Upload(Done)] == [Look] + [Upload(Done)];
    RunConcat(m0, [Look], [Upload(Done)]);
    RunOne(m0, Look);
    RunOne(m1, Upload(Done));
    hide Run;
  }

  // ---- The code ----

  /** What happens at one moment: the local changes before it, whether sizes can be read, and the outcome of a
      request or a write made at it. */
  datatype Moment = Moment(changes: seq<Change>, readable: bool, put: Put, write: Write)

  predicate Quiet(m: Moment) {
    m.changes == [] && m.readable && m.put.Done? && m.write.Saved?
  }

  function LocalEvents(changes: seq<Change>): seq<Event> {
    if changes == [] then [] else [Local(changes[0])] + LocalEvents(changes[1..])
  }

  lemma {:induction false} RunConcat(m: Machine, a: seq<Event>, b: seq<Event>)
    ensures Run(m, a + b) == Run(Run(m, a), b)
    decreases |a|
  {
    if a == [] {
      assert a + b == b;
    } else {
      assert (a + b)[1..] == a[1..] + b;
      RunConcat(Step(m, a[0]), a[1..], b);
    }
  }

  class Syncer {
    var local: map<File, Bytes>
    var remote: map<File, Bytes>
    var manifest: Option<map<File, nat>>
    var saved: map<File, nat>
    ghost var dirty: set<File>
    ghost var cut: set<File>

    ghost function Value(): Backup
      reads this
    {
      Backup(local, remote, manifest, saved, dirty, cut)
    }

    constructor ()
      ensures Value() == START.backup
    {
      local, remote, manifest, saved, dirty, cut := map[], map[], None, map[], {}, {};
    }

    /** The changes the rest of the program makes at one moment. */
    method Elapse(changes: seq<Change>, ghost phase: Phase)
      modifies `local, `dirty, `cut
      ensures Machine(Value(), phase) == Run(Machine(old(Value()), phase), LocalEvents(changes))
      ensures changes == [] ==> Value() == old(Value())
    {
      for i := 0 to |changes|
        invariant Run(Machine(Value(), phase), LocalEvents(changes[i..]))
                  == Run(Machine(old(Value()), phase), LocalEvents(changes))
        invariant changes == [] ==> Value() == old(Value())
        invariant remote == old(remote) && manifest == old(manifest) && saved == old(saved)
      {
        assert changes[i..][1..] == changes[i + 1..];
        MakeChange(changes[i]);
      }
    }

    method MakeChange(change: Change)
      modifies `local, `dirty, `cut
      ensures Value() == Apply(old(Value()), change)
    {
      ghost var next := Apply(Value(), change);
      dirty, cut := next.dirty, next.cut;
      match change {
        case Grown(f, bytes) => local := local[f := (if f in local then local[f] else []) + bytes];
        case Replaced(f, contents) => local := local[f := contents];
      }
    }

    /** Look at one target and upload it if it is stale. `before` and `during` are the moments just before
        its size is taken and just before it is read. */
    method SyncTarget(
        f: File, sizes: map<File, nat>, synced: nat, before: Moment, during: Moment, ghost rest: seq<File>)
      returns (sizes': map<File, nat>, synced': nat, aborted: bool, ghost events: seq<Event>)
      modifies `local, `remote, `dirty, `cut
      ensures Machine(Value(), if aborted then Idle else Scanning(sizes', rest, synced'))
              == Run(Machine(old(Value()), Scanning(sizes, [f] + rest, synced)), events)
      ensures Quiet(before) && Quiet(during) ==>
                && !aborted && local == old(local)
                && if f in local && Stale(f, |local[f]|, Size(sizes, f))
                   then remote == old(remote)[f := local[f]] && sizes' == sizes[f := |local[f]|] && synced' == synced + 1
                   else remote == old(remote) && sizes' == sizes && synced' == synced
    {
      hide Stale, IsPrefix, Run;
      sizes', synced', aborted := sizes, synced, false;
      ghost var targets := [f] + rest;
      ghost var p0 := Scanning(sizes, targets, synced);
      ghost var m0 := Machine(Value(), p0);
      assert targets[1..] == rest;
      Elapse(before.changes, p0);
      ghost var sofar := LocalEvents(before.changes);
      if f in local && !before.readable {
        events := sofar + [Stop];
        RunSnoc(m0, sofar, Stop);
        aborted := true;
        return;
      }
      events := sofar + [Look];
      RunSnoc(m0, sofar, Look);
      if f !in local {
        return;
      }
      var size, last := |local[f]|, Size(sizes, f);
      if !Stale(f, size, last) {
        return;
      }
      ghost var p1 := Uploading(sizes, targets, synced, size);
      sofar := events + LocalEvents(during.changes);
      RunConcat(m0, events, LocalEvents(during.changes));
      Elapse(during.changes, p1);
      RunSnoc(m0, sofar, Upload(during.put));
      events := sofar + [Upload(during.put)];
      aborted := PutObject(f, during.put);
      if f in local && during.put.Done? {
        sizes' := sizes[f := size];
        synced' := synced + 1;
      }
    }

    /** Read the file and put it to the store; a failure ends the synchronisation for a registry file only. */
    method PutObject(f: File, put: Put) returns (aborted: bool)
      modifies `remote, `dirty
      ensures aborted <==> (f !in local || !put.Done?) && f !in SYNC_FILES
      ensures remote == if f in local && !put.Failed? then old(remote)[f := local[f]] else old(remote)
      ensures dirty == if f in local && !put.Failed? then old(dirty) - {f} else old(dirty)
    {
      if f in local && !put.Failed? {
        remote := remote[f := local[f]];
        dirty := dirty - {f};
      }
      aborted := (f !in local || !put.Done?) && f !in SYNC_FILES;
    }

    /** The loop over the targets. In quiet, each target that is stale gets its object and its size on record,
        and no other one does. */
    method ScanTargets(targets: seq<File>, moment: nat -> Moment)
      returns (sizes: map<File, nat>, synced: nat, aborted: bool, ghost events: seq<Event>)
      modifies `local, `remote, `dirty, `cut
      ensures Machine(Value(), if aborted then Idle else Scanning(sizes, [], synced))
              == Run(Machine(old(Value()), Scanning(saved, targets, 0)), events)
      ensures (forall k :: Quiet(moment(k))) ==>
                !aborted && local == old(local) && Refreshed(local, old(remote), saved, remote, sizes, targets)
    {
      hide Run, Quiet, Refreshed, Stale;
      sizes, synced, aborted, events := saved, 0, false, [];
      ghost var m0 := Machine(Value(), Scanning(saved, targets, 0));
      ghost var quiet := forall k :: Quiet(moment(k));
      NothingRun(m0);
      NothingRefreshed(local, remote, saved);
      assert targets[0..] == targets && targets[..0] == [];
      for i := 0 to |targets|
        invariant !aborted
        invariant Machine(Value(), Scanning(sizes, targets[i..], synced)) == Run(m0, events)
        invariant quiet ==> local == old(local) && Refreshed(local, old(remote), saved, remote, sizes, targets[..i])
      {
        assert targets[i..] == [targets[i]] + targets[i + 1..] && targets[..i + 1] == targets[..i] + [targets[i]];
        ghost var remote0, sizes0, more := remote, sizes, [];
        sizes, synced, aborted, more := SyncTarget(targets[i], sizes, synced, moment(2 * i), moment(2 * i + 1), targets[i + 1..]);
        RunConcat(m0, events, more);
        events := events + more;
        if aborted {
          return;
        }
        if quiet {
          RefreshedNext(local, old(remote), saved, remote0, sizes0, remote, sizes, targets[..i], targets[i]);
        }
      }
      assert targets[|targets|..] == [] && targets[..|targets|] == targets;
    }

    /** Write the manifest, then save the state. */
    method PublishAndSave(sizes: map<File, nat>, last: Moment) returns (ok: bool, ghost events: seq<Event>)
      modifies this
      ensures Machine(Value(), Idle) == Run(Machine(old(Value()), Publishing(sizes)), events)
      ensures Quiet(last) ==> ok && local == old(local)
      ensures remote == old(remote)
    {
      hide Run;
      ghost var m0 := Machine(Value(), Publishing(sizes));
      Elapse(last.changes, Publishing(sizes));
      events := LocalEvents(last.changes) + [Publish(last.put)];
      RunSnoc(m0, LocalEvents(last.changes), Publish(last.put));
      if !last.put.Failed? {
        manifest := Some(sizes);
      }
      if !last.put.Done? {
        return false, events;
      }
      RunSnoc(m0, events, Save(last.write));
      events := events + [Save(last.write)];
      match last.write {
        case Saved => saved := sizes;
        case NotSaved =>
        case Corrupted => saved := map[];
      }
      ok := last.write.Saved?;
    }

    /** One synchronisation; `registry` is the listing of the registry, None when it cannot be read. It is a
        run of the machine above. And if nothing fails and nothing changes while it runs, then for each target
        and for any objects there were before: it leaves an exact copy iff the file was stale, or was copied
        before; and a prefix iff the file was stale, or the object was a prefix before. */
    method DoSync(registry: Option<seq<File>>, moment: nat -> Moment) returns (ok: bool, ghost events: seq<Event>)
      modifies this
      ensures Machine(Value(), Idle) == Run(Machine(old(Value()), Idle), events)
      ensures (forall k :: Quiet(moment(k))) && registry.Some? ==>
                && ok && local == old(local)
                && forall f :: f in Targets(registry.value) && f in local ==>
                     && var last := if f in old(saved) then old(saved)[f] else 0;
                        var stale := if f in SYNC_FILES then |local[f]| > last else |local[f]| != last;
                     && (Copied(local, remote, f) <==> stale || Copied(local, old(remote), f))
                     && (IsPrefix(local, remote, f) <==> stale || IsPrefix(local, old(remote), f))
    {
      hide Run, Targets, Quiet, Refreshed, IsPrefix, Copied;
      var targets := Targets(if registry.Some? then registry.value else []);
      ghost var m0 := Machine(Value(), Idle);
      ghost var begin := Begin(if registry.Some? then registry.value else []);
      events := [begin];
      RunOne(m0, begin);
      var sizes, synced, aborted;
      ghost var more;
      sizes, synced, aborted, more := ScanTargets(targets, moment);
      ghost var remote1 := remote;
      RunConcat(m0, events, more);
      events := events + more;
      if aborted {
        return false, events;
      }
      if registry.None? {
        RunSnoc(m0, events, Stop);
        return false, events + [Stop];
      }
      if forall k :: Quiet(moment(k)) {
        RefreshedHeals(local, old(remote), old(saved), remote, sizes, targets);
      }
      RunSnoc(m0, events, Look);
      events := events + [Look];
      if synced == 0 {
        return true, events;
      }
      ok, more := PublishAndSave(sizes, moment(2 * |targets|));
      RunConcat(m0, events, more);
      events := events + more;
    }
  }

  lemma RunOne(m: Machine, e: Event)
    ensures Run(m, [e]) == Step(m, e)
  {
    assert [e][1..] == [];
  }

  lemma NothingRun(m: Machine)
    ensures Run(m, []) == m
  {
  }

  lemma RunSnoc(m: Machine, events: seq<Event>, e: Event)
    ensures Run(m, events + [e]) == Step(Run(m, events), e)
  {
    RunConcat(m, events, [e]);
    RunOne(Run(m, events), e);
  }

  /** The object is an exact copy of the file. */
  predicate Copied(local: map<File, Bytes>, remote: map<File, Bytes>, f: File) {
    f in local && f in remote && remote[f] == local[f]
  }

  /** After the targets done so far: those that were stale are copied and on record, the rest is as before. */
  ghost predicate Refreshed(
    local: map<File, Bytes>, remote0: map<File, Bytes>, sizes0: map<File, nat>, remote: map<File, Bytes>,
    sizes: map<File, nat>, done: seq<File>)
  {
    forall f ::
      if f in done && f in local && Stale(f, |local[f]|, Size(sizes0, f))
      then Copied(local, remote, f) && Size(sizes, f) == |local[f]|
      else SameObject(remote0, remote, f) && Size(sizes, f) == Size(sizes0, f)
  }

  predicate SameObject(remote0: map<File, Bytes>, remote: map<File, Bytes>, f: File) {
    (f in remote <==> f in remote0) && (f in remote0 ==> remote[f] == remote0[f])
  }

  lemma NothingRefreshed(local: map<File, Bytes>, remote: map<File, Bytes>, sizes: map<File, nat>)
    ensures Refreshed(local, remote, sizes, remote, sizes, [])
  {
  }

  lemma RefreshedNext(
    local: map<File, Bytes>, remote0: map<File, Bytes>, sizes0: map<File, nat>, remote1: map<File, Bytes>,
    sizes1: map<File, nat>, remote: map<File, Bytes>, sizes: map<File, nat>, done: seq<File>, t: File)
    requires Refreshed(local, remote0, sizes0, remote1, sizes1, done)
    requires if t in local && Stale(t, |local[t]|, Size(sizes1, t))
             then remote == remote1[t := local[t]] && sizes == sizes1[t := |local[t]|]
             else remote == remote1 && sizes == sizes1
    ensures Refreshed(local, remote0, sizes0, remote, sizes, done + [t])
  {
    CopiedIsFresh(t, if t in local then |local[t]| else 0);
    hide Stale;
  }

  lemma CopiedIsFresh(f: File, size: nat)
    ensures !Stale(f, size, size)
  {
  }

  lemma RefreshedHeals(
    local: map<File, Bytes>, remote0: map<File, Bytes>, sizes0: map<File, nat>, remote: map<File, Bytes>,
    sizes: map<File, nat>, done: seq<File>)
    requires Refreshed(local, remote0, sizes0, remote, sizes, done)
    ensures forall f :: f in done && f in local ==>
              && var stale := Stale(f, |local[f]|, Size(sizes0, f));
              && (Copied(local, remote, f) <==> stale || Copied(local, remote0, f))
              && (IsPrefix(local, remote, f) <==> stale || IsPrefix(local, remote0, f))
  {
    hide Stale;
  }

  /** A file that was neither replaced since its last upload nor ever cut is copied already when it is not
      stale and not empty, so a quiet synchronisation leaves copies of all such files. */
  lemma CopiedOrStale(b: Backup, f: File)
    requires Safe(b) && f in b.local && f !in b.dirty && f !in b.cut && b.local[f] != []
    ensures var last := if f in b.saved then b.saved[f] else 0;
            (if f in SYNC_FILES then |b.local[f]| > last else |b.local[f]| != last) || Copied(b.local, b.remote, f)
  {
    assert FileOk(b, f);
  }

  // ---- The order of publishing and saving ----

  /** The sizes about to be saved are those of the manifest. */
  ghost predicate Published(m: Machine) {
    m.phase.Saving? ==> m.backup.manifest == Some(m.phase.sizes)
  }

  lemma {:induction false} RunPublishes(m: Machine, events: seq<Event>)
    requires Published(m)
    ensures Published(Run(m, events))
    decreases |events|
  {
    if events != [] {
      StepPublishes(m, events[0]);
      hide Published, Step;
      RunPublishes(Step(m, events[0]), events[1..]);
    }
  }

  lemma StepPublishes(m: Machine, e: Event)
    requires Published(m)
    ensures Published(Step(m, e))
  {
    hide Stale, IsPrefix, Targets;
  }

  /** Over any run, whenever a state is saved, the manifest has been written with the same sizes before. */
  lemma SavedIsPublished(events: seq<Event>)
    requires Run(START, events).phase.Saving?
    ensures var b := Step(Run(START, events), Save(Saved)).backup;
            b.manifest == Some(b.saved) && b.saved == Run(START, events).phase.sizes
  {
    RunPublishes(START, events);
    hide Run;
  }

  /** Every store file is looked at in each synchronisation, and after them every bundle of the registry that
      is listed. */
  lemma TargetsAre(registry: seq<File>, f: File)
    ensures f in Targets(registry) <==>
              || f == "blobs/blobs.pack" || f == "blobs/blobs.idx" || f == "turns/turns.log" || f == "turns/turns.idx"
              || f == "turns/turns.meta" || f == "turns/heads.tbl" || f in registry
    ensures Targets(registry)[6..] == registry
  {
    assert f in Targets(registry) <==> f in SYNC_FILES || f in registry;
  }
}

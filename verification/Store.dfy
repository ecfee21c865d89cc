/** The turn store: content-addressed payloads, turns that point to their parents, one head per context,
    and the lazily filled cache of context metadata with the parent index built from it. */
module Store {
  import opened Basics

  const TWO_TO_THE_32: nat := 0x1_0000_0000

  /** Metadata extracted from a payload; of its provenance only the parent context matters here. */
  datatype Metadata = Metadata(clientTag: Option<string>, title: Option<string>, parent: Option<nat>)

  /** The foreign functions: the digest, zstd decompression and the msgpack extraction of metadata. */
  datatype Foreign = Foreign(
    digest: Bytes -> Hash, decompress: Bytes -> Option<Bytes>, extract: Bytes -> Option<Metadata>)

  datatype Turn = Turn(id: nat, parentId: nat, depth: nat, payloadHash: Hash)

  datatype Head = Head(turnId: nat, depth: nat)

  datatype Request = Request(
    contextId: nat, parentTurnId: nat, compression: nat, uncompressedLen: nat, contentHash: Hash, payload: Bytes)

  datatype StoreError = BadPayload | LengthMismatch | HashMismatch | TurnNotFound | ContextNotFound | BlobNotFound

  /** The value of a store. Four history variables: the contexts created empty and only ever extended at
      their head; those whose metadata was cached while they had no turn; the contexts an append has
      returned metadata for, in order; and every blob ever offered. */
  datatype State = State(
    blobs: map<Hash, Bytes>, turns: map<nat, Turn>, heads: map<nat, Head>, nextTurnId: nat, nextContextId: nat,
    cache: map<nat, Option<Metadata>>, parents: map<nat, set<nat>>,
    linear: set<nat>, early: set<nat>, announced: seq<nat>)

  const EMPTY: State := State(map[], map[], map[], 1, 1, map[], map[], {}, {}, [])

  // ---- Reading ----

  /** The walk from a turn back to a turn of depth 0. */
  function FirstTurn(turns: map<nat, Turn>, id: nat): Option<Turn> {
    if id == 0 || id !in turns then None
    else if turns[id].depth == 0 then Some(turns[id])
    else if turns[id].parentId < id then FirstTurn(turns, turns[id].parentId)
    else None
  }

  /** A turn and its ancestors, oldest first. */
  function Chain(turns: map<nat, Turn>, id: nat): seq<Turn> {
    if id == 0 || id !in turns then []
    else if turns[id].parentId < id then Chain(turns, turns[id].parentId) + [turns[id]]
    else [turns[id]]
  }

  /** The turns of a context, oldest first. */
  function ChainOf(s: State, c: nat): seq<Turn>
    requires c in s.heads
  {
    Chain(s.turns, s.heads[c].turnId)
  }

  /** The metadata a fresh load finds in the first turn of a context. */
  function Load(f: Foreign, s: State, c: nat): Option<Metadata> {
    if c !in s.heads then None
    else
      var first := FirstTurn(s.turns, s.heads[c].turnId);
      if first.None? || first.value.payloadHash !in s.blobs then None
      else f.extract(s.blobs[first.value.payloadHash])
  }

  // ---- What the methods compute ----

  predicate HasTurns(s: State, c: nat) {
    c in s.heads && s.heads[c].turnId != 0
  }

  function Create(s: State, base: nat): (State, Result<nat, StoreError>) {
    if base != 0 && base !in s.turns then (s, Err(TurnNotFound))
    else
      var head := if base == 0 then Head(0, 0) else Head(base, s.turns[base].depth);
      (s.(heads := s.heads[s.nextContextId := head], nextContextId := s.nextContextId + 1,
          linear := if base == 0 && s.nextContextId !in s.heads then s.linear + {s.nextContextId}
                    else s.linear - {s.nextContextId}),
       Ok(s.nextContextId))
  }

  /** Read the metadata of a context through the cache. */
  function GetMetadata(f: Foreign, s: State, c: nat): (State, Option<Metadata>) {
    if c in s.cache then (s, s.cache[c])
    else
      (s.(cache := s.cache[c := Load(f, s, c)], early := if HasTurns(s, c) then s.early else s.early + {c}),
       Load(f, s, c))
  }

  function RawBytes(f: Foreign, r: Request): Option<Bytes> {
    if r.compression == 0 then Some(r.payload)
    else if r.compression == 1 then f.decompress(r.payload)
    else None
  }

  /** The parent of the new turn: the requested one, or the head of the context. None stands for a
      missing turn or context. */
  function ParentOf(s: State, r: Request): Result<Option<Turn>, StoreError> {
    if r.parentTurnId != 0 then
      if r.parentTurnId in s.turns then Ok(Some(s.turns[r.parentTurnId])) else Err(TurnNotFound)
    else if r.contextId !in s.heads then Err(ContextNotFound)
    else if s.heads[r.contextId].turnId == 0 then Ok(None)
    else if s.heads[r.contextId].turnId in s.turns then Ok(Some(s.turns[s.heads[r.contextId].turnId]))
    else Err(TurnNotFound)
  }

  function NewTurn(s: State, parent: Option<Turn>, payloadHash: Hash): Turn {
    match parent
    case None => Turn(s.nextTurnId, 0, 0, payloadHash)
    case Some(p) => Turn(s.nextTurnId, p.id, p.depth + 1, payloadHash)
  }

  function PutIfAbsent(blobs: map<Hash, Bytes>, h: Hash, raw: Bytes): map<Hash, Bytes> {
    if h in blobs then blobs else blobs[h := raw]
  }

  /** Recording a turn and moving the head of the context to it. */
  function AddTurn(s: State, r: Request, turn: Turn): State {
    var atHead := r.contextId in s.heads && s.heads[r.contextId].turnId == turn.parentId;
    s.(turns := s.turns[turn.id := turn], nextTurnId := s.nextTurnId + 1,
       heads := s.heads[r.contextId := Head(turn.id, turn.depth)],
       linear := if atHead then s.linear else s.linear - {r.contextId})
  }

  function AddParent(parents: map<nat, set<nat>>, m: Metadata, c: nat): map<nat, set<nat>> {
    if m.parent.None? then parents
    else
      var p := m.parent.value;
      parents[p := (if p in parents then parents[p] else {}) + {c}]
  }

  /** Fill the cache on the first append to a context and index what was found. */
  function CacheFirst(f: Foreign, s: State, c: nat, raw: Bytes): (State, Option<Metadata>) {
    if c in s.cache then (s, None)
    else
      var m := f.extract(raw);
      var s1 := s.(cache := s.cache[c := m]);
      if m.None? then (s1, None)
      else (s1.(parents := AddParent(s.parents, m.value, c), announced := s.announced + [c]), m)
  }

  function Append(f: Foreign, s: State, r: Request): (State, Result<(Turn, Option<Metadata>), StoreError>) {
    var raw := RawBytes(f, r);
    if raw.None? then (s, Err(BadPayload))
    else if |raw.value| % TWO_TO_THE_32 != r.uncompressedLen then (s, Err(LengthMismatch))
    else if f.digest(raw.value) != r.contentHash then (s, Err(HashMismatch))
    else
      var s1 := s.(blobs := PutIfAbsent(s.blobs, r.contentHash, raw.value));
      var parent := ParentOf(s1, r);
      if parent.Err? then (s1, Err(parent.error))
      else
        var turn := NewTurn(s1, parent.value, r.contentHash);
        var (s2, m) := CacheFirst(f, AddTurn(s1, r, turn), r.contextId, raw.value);
        (s2, Ok((turn, m)))
  }

  /** Store a blob after checking its digest. */
  function PutBlob(f: Foreign, s: State, h: Hash, data: Bytes): State {
    if f.digest(data) == h then s.(blobs := PutIfAbsent(s.blobs, h, data)) else s
  }

  /** The next id to give out after reading back the ids in use. */
  function NextAfter(ids: set<nat>): nat {
    if ids == {} then 1 else Largest(ids) + 1
  }

  /** Opening the store again: the counters go on after the largest ids, the cache is dropped and refilled for
      every context, and the parent index is built from it. */
  function Reopen(f: Foreign, s: State): State {
    var cache := map c | c in s.heads :: Load(f, s, c);
    s.(nextTurnId := NextAfter(s.turns.Keys), nextContextId := NextAfter(s.heads.Keys),
       cache := cache,
       parents := map p | p in ParentsNamed(cache) :: (set c | c in cache && Names(cache[c], p)),
       early := set c | c in s.heads && s.heads[c].turnId == 0)
  }

  predicate Names(m: Option<Metadata>, p: nat) {
    m.Some? && m.value.parent == Some(p)
  }

  function ParentsNamed(cache: map<nat, Option<Metadata>>): set<nat> {
    set c | c in cache && cache[c].Some? && cache[c].value.parent.Some? :: cache[c].value.parent.value
  }

  // ---- The code ----

  class TurnStore {
    const foreign: Foreign
    var blobs: map<Hash, Bytes>
    var turns: map<nat, Turn>
    var heads: map<nat, Head>
    var nextTurnId: nat
    var nextContextId: nat
    var cache: map<nat, Option<Metadata>>
    var parents: map<nat, set<nat>>
    ghost var linear: set<nat>
    ghost var early: set<nat>
    ghost var announced: seq<nat>

    ghost function Value(): State
      reads this
    {
      State(blobs, turns, heads, nextTurnId, nextContextId, cache, parents, linear, early, announced)
    }

    constructor (foreign: Foreign)
      ensures Value() == EMPTY && this.foreign == foreign
    {
      this.foreign := foreign;
      blobs, turns, heads, nextTurnId, nextContextId := map[], map[], map[], 1, 1;
      cache, parents, linear, early, announced := map[], map[], {}, {}, [];
    }

    method CreateContext(base: nat) returns (r: Result<nat, StoreError>)
      modifies this
      ensures (Value(), r) == Create(old(Value()), base)
    {
      var head := Head(0, 0);
      if base != 0 {
        if base !in turns {
          return Err(TurnNotFound);
        }
        head := Head(base, turns[base].depth);
      }
      var contextId := nextContextId;
      linear := if base == 0 && contextId !in heads then linear + {contextId} else linear - {contextId};
      nextContextId := nextContextId + 1;
      heads := heads[contextId := head];
      r := Ok(contextId);
    }

    /** Walk back from the head to the turn of depth 0. */
    method GetFirstTurn(c: nat) returns (r: Option<Turn>)
      requires TurnsOk(turns)
      ensures r == if c in heads then FirstTurn(turns, heads[c].turnId) else None
    {
      if c !in heads {
        return None;
      }
      var current := heads[c].turnId;
      while current != 0
        invariant FirstTurn(turns, current) == FirstTurn(turns, heads[c].turnId)
        decreases current
      {
        if current !in turns {
          return None;
        }
        if turns[current].depth == 0 {
          return Some(turns[current]);
        }
        current := turns[current].parentId;
      }
      r := None;
    }

    method GetContextMetadata(c: nat) returns (m: Option<Metadata>)
      requires TurnsOk(turns)
      modifies `cache, `early
      ensures (Value(), m) == GetMetadata(foreign, old(Value()), c)
    {
      if c in cache {
        return cache[c];
      }
      var first := GetFirstTurn(c);
      m := None;
      if first.Some? && first.value.payloadHash in blobs {
        m := foreign.extract(blobs[first.value.payloadHash]);
      }
      early := if c in heads && heads[c].turnId != 0 then early else early + {c};
      cache := cache[c := m];
    }

    method AppendTurn(r: Request) returns (result: Result<(Turn, Option<Metadata>), StoreError>)
      modifies this
      ensures (Value(), result) == Append(foreign, old(Value()), r)
    {
      var raw := RawBytes(foreign, r);
      if raw.None? {
        return Err(BadPayload);
      }
      if |raw.value| % TWO_TO_THE_32 != r.uncompressedLen {
        return Err(LengthMismatch);
      }
      if foreign.digest(raw.value) != r.contentHash {
        return Err(HashMismatch);
      }
      if r.contentHash !in blobs {
        blobs := blobs[r.contentHash := raw.value];
      }
      var recorded := RecordTurn(r);
      if recorded.Err? {
        return Err(recorded.error);
      }
      var m := MaybeCacheMetadata(r.contextId, raw.value);
      result := Ok((recorded.value, m));
    }

    /** Find the parent, record the turn and move the head. */
    method RecordTurn(r: Request) returns (result: Result<Turn, StoreError>)
      modifies this
      ensures cache == old(cache) && parents == old(parents)
      ensures var s, parent := old(Value()), ParentOf(old(Value()), r);
              if parent.Err? then Value() == s && result == Err(parent.error)
              else
                var turn := NewTurn(s, parent.value, r.contentHash);
                Value() == AddTurn(s, r, turn) && result == Ok(turn)
    {
      var parentId, depth := 0, 0;
      if r.parentTurnId != 0 {
        if r.parentTurnId !in turns {
          return Err(TurnNotFound);
        }
        parentId, depth := turns[r.parentTurnId].id, turns[r.parentTurnId].depth + 1;
      } else {
        if r.contextId !in heads {
          return Err(ContextNotFound);
        }
        var head := heads[r.contextId].turnId;
        if head != 0 {
          if head !in turns {
            return Err(TurnNotFound);
          }
          parentId, depth := turns[head].id, turns[head].depth + 1;
        }
      }
      var turn := Turn(nextTurnId, parentId, depth, r.contentHash);
      linear := if r.contextId in heads && heads[r.contextId].turnId == parentId then linear else linear - {r.contextId};
      nextTurnId := nextTurnId + 1;
      turns := turns[turn.id := turn];
      heads := heads[r.contextId := Head(turn.id, turn.depth)];
      result := Ok(turn);
    }

    method MaybeCacheMetadata(c: nat, raw: Bytes) returns (m: Option<Metadata>)
      modifies `cache, `parents, `announced
      ensures (Value(), m) == CacheFirst(foreign, old(Value()), c, raw)
    {
      if c in cache {
        return None;
      }
      m := foreign.extract(raw);
      cache := cache[c := m];
      if m.Some? {
        parents := AddParent(parents, m.value, c);
        announced := announced + [c];
      }
    }

    /** The last turns of a context, oldest first. */
    method LastTurns(c: nat, limit: nat) returns (results: seq<Turn>)
      requires TurnsOk(turns) && HeadsOk(heads, turns) && c in heads
      ensures results == Last(Chain(turns, heads[c].turnId), limit)
    {
      var current := heads[c].turnId;
      results := [];
      ghost var chain := Chain(turns, current);
      assert chain + results == chain;
      while current != 0 && |results| < limit
        invariant |results| <= limit
        invariant current != 0 ==> current in turns
        invariant chain == Chain(turns, current) + results
        decreases current
      {
        ConcatAssociative(Chain(turns, turns[current].parentId), [turns[current]], results);
        results := [turns[current]] + results;
        current := turns[current].parentId;
      }
      SuffixOf(chain, Chain(turns, current), results);
    }

    /** The last turns of a context with their payloads, oldest first. */
    method GetLast(c: nat, limit: nat) returns (r: Result<seq<(Turn, Bytes)>, StoreError>)
      requires TurnsOk(turns) && HeadsOk(heads, turns)
      ensures r == if c !in heads then Err(ContextNotFound)
                   else WithPayloads(blobs, Last(Chain(turns, heads[c].turnId), limit))
    {
      if c !in heads {
        return Err(ContextNotFound);
      }
      var results := LastTurns(c, limit);
      r := AttachPayloads(results);
    }

    method AttachPayloads(results: seq<Turn>) returns (r: Result<seq<(Turn, Bytes)>, StoreError>)
      ensures r == WithPayloads(blobs, results)
    {
      var out: seq<(Turn, Bytes)> := [];
      for i := 0 to |results|
        invariant |out| == i
        invariant forall j :: 0 <= j < i ==> results[j].payloadHash in blobs
        invariant forall j :: 0 <= j < i ==> out[j] == (results[j], blobs[results[j].payloadHash])
      {
        if results[i].payloadHash !in blobs {
          assert results[i] in results;
          return Err(BlobNotFound);
        }
        out := out + [(results[i], blobs[results[i].payloadHash])];
      }
      assert forall t :: t in results ==> t.payloadHash in blobs;
      assert out == WithPayloads(blobs, results).value;
      r := Ok(out);
    }
  }

  lemma SuffixOf(all: seq<Turn>, front: seq<Turn>, back: seq<Turn>)
    requires all == front + back
    ensures all[|all| - |back|..] == back
    ensures front == [] ==> all == back
  {
  }

  function Last(chain: seq<Turn>, limit: nat): seq<Turn> {
    if limit <= |chain| then chain[|chain| - limit..] else chain
  }

  function WithPayloads(blobs: map<Hash, Bytes>, turns: seq<Turn>): Result<seq<(Turn, Bytes)>, StoreError> {
    if forall t :: t in turns ==> t.payloadHash in blobs
    then Ok(seq(|turns|, i requires 0 <= i < |turns| && turns[i].payloadHash in blobs => (turns[i], blobs[turns[i].payloadHash])))
    else Err(BlobNotFound)
  }

  // ---- Invariants ----

  /** Turns are numbered upwards from 1, and each is one deeper than its parent. */
  ghost predicate TurnsOk(turns: map<nat, Turn>) {
    forall id :: id in turns ==>
      && id > 0 && turns[id].id == id
      && (turns[id].parentId == 0 ==> turns[id].depth == 0)
      && (turns[id].parentId != 0 ==>
            turns[id].parentId < id && turns[id].parentId in turns && turns[id].depth == turns[turns[id].parentId].depth + 1)
  }

  ghost predicate HeadsOk(heads: map<nat, Head>, turns: map<nat, Turn>) {
    forall c :: c in heads ==>
      if heads[c].turnId == 0 then heads[c].depth == 0
      else heads[c].turnId in turns && heads[c].depth == turns[heads[c].turnId].depth
  }

  /** Every blob is stored under its digest, and every turn's payload is stored. */
  ghost predicate ContentOk(f: Foreign, s: State) {
    && (forall h :: h in s.blobs ==> f.digest(s.blobs[h]) == h)
    && (forall id :: id in s.turns ==> s.turns[id].payloadHash in s.blobs)
  }

  ghost predicate Core(f: Foreign, s: State) {
    && TurnsOk(s.turns) && HeadsOk(s.heads, s.turns) && ContentOk(f, s)
    && s.nextTurnId > 0 && (forall id :: id in s.turns ==> id < s.nextTurnId)
  }

  function Indexed(parents: map<nat, set<nat>>, p: nat): set<nat> {
    if p in parents then parents[p] else {}
  }

  function Entry(s: State, c: nat): Option<Metadata> {
    if c in s.cache then s.cache[c] else None
  }

  /** The context is indexed under exactly the parent its cache entry names. */
  ghost predicate IndexAgrees(entry: Option<Metadata>, parents: map<nat, set<nat>>, c: nat) {
    forall p :: c in Indexed(parents, p) <==> Names(entry, p)
  }

  /** What the cache and the parent index say about one context. */
  ghost predicate CachedOk(f: Foreign, s: State, c: nat) {
    && (c !in s.heads ==> (c in s.cache <==> c in s.early) && (c in s.cache ==> s.cache[c] == None))
    && (c in s.linear && c in s.heads && s.heads[c].turnId == 0 ==>
          (c in s.cache <==> c in s.early) && (c in s.cache ==> s.cache[c] == None))
    && (c in s.linear && c in s.heads && s.heads[c].turnId != 0 ==>
          c in s.cache && s.cache[c] == if c in s.early then None else Load(f, s, c))
    && (c in s.linear || c !in s.heads ==> IndexAgrees(Entry(s, c), s.parents, c))
  }

  ghost predicate CacheOk(f: Foreign, s: State) {
    && s.linear <= s.heads.Keys
    && forall c :: CachedOk(f, s, c)
  }

  /** Each context is announced at most once, and only when it has an entry that stays. */
  ghost predicate AnnouncedOk(s: State) {
    && (forall i :: 0 <= i < |s.announced| ==> s.announced[i] in s.cache && s.announced[i] in s.heads)
    && (forall i, j :: 0 <= i < j < |s.announced| ==> s.announced[i] != s.announced[j])
  }

  /** Recording a new turn does not change what is found from an older one. */
  lemma {:induction false} OlderTurnsStay(turns: map<nat, Turn>, turn: Turn, id: nat)
    requires TurnsOk(turns) && turn.id !in turns && (id == 0 || id in turns)
    ensures FirstTurn(turns[turn.id := turn], id) == FirstTurn(turns, id)
    ensures Chain(turns[turn.id := turn], id) == Chain(turns, id)
    decreases id
  {
    if id != 0 && turns[id].parentId < id {
      OlderTurnsStay(turns, turn, turns[id].parentId);
    }
  }

  lemma {:induction false} FirstTurnExists(turns: map<nat, Turn>, id: nat)
    requires TurnsOk(turns) && id in turns
    ensures FirstTurn(turns, id).Some? && FirstTurn(turns, id).value.id in turns
    ensures turns[FirstTurn(turns, id).value.id] == FirstTurn(turns, id).value
    decreases id
  {
    if turns[id].depth != 0 {
      FirstTurnExists(turns, turns[id].parentId);
    }
  }

  /** A chain has one turn for each depth from 0 up, each with a stored payload. */
  lemma {:induction false} ChainDepths(turns: map<nat, Turn>, id: nat)
    requires TurnsOk(turns) && id in turns
    ensures var chain := Chain(turns, id);
            && |chain| == turns[id].depth + 1 && chain[|chain| - 1] == turns[id]
            && forall i :: 0 <= i < |chain| ==>
                 chain[i].depth == i && chain[i].id in turns && turns[chain[i].id] == chain[i]
    decreases id
  {
    if turns[id].parentId != 0 {
      ChainDepths(turns, turns[id].parentId);
    }
  }

  // ---- Every operation keeps the invariants ----

  datatype Op =
    | CreateOp(base: nat)
    | AppendOp(request: Request)
    | ReadOp(contextId: nat)
    | PutBlobOp(hash: Hash, data: Bytes)
    | ReopenOp

  function Step(f: Foreign, s: State, op: Op): State {
    match op
    case CreateOp(base) => Create(s, base).0
    case AppendOp(request) => Append(f, s, request).0
    case ReadOp(c) => GetMetadata(f, s, c).0
    case PutBlobOp(h, data) => PutBlob(f, s, h, data)
    case ReopenOp => Reopen(f, s)
  }

  function Run(f: Foreign, s: State, ops: seq<Op>): State
    decreases |ops|
  {
    if ops == [] then s else Run(f, Step(f, s, ops[0]), ops[1..])
  }

  /** The uncompressed bytes an operation offers to the store. */
  function Offered(f: Foreign, op: Op): set<Bytes> {
    match op
    case AppendOp(r) => if RawBytes(f, r).Some? then {RawBytes(f, r).value} else {}
    case PutBlobOp(_, data) => {data}
    case _ => {}
  }

  ghost predicate Drawn(s: State, blobs: set<Bytes>) {
    forall h :: h in s.blobs ==> s.blobs[h] in blobs
  }

  lemma PutKeepsCore(f: Foreign, s: State, h: Hash, raw: Bytes)
    requires Core(f, s) && f.digest(raw) == h
    ensures var s' := s.(blobs := PutIfAbsent(s.blobs, h, raw));
            && Core(f, s') && h in s'.blobs
            && forall c :: Load(f, s', c) == Load(f, s, c)
  {
    var s' := s.(blobs := PutIfAbsent(s.blobs, h, raw));
    forall c ensures Load(f, s', c) == Load(f, s, c) {
      if HasTurns(s, c) {
        FirstTurnExists(s.turns, s.heads[c].turnId);
      }
    }
  }

  lemma AddTurnKeepsTurns(s: State, r: Request, turn: Turn)
    requires TurnsOk(s.turns) && HeadsOk(s.heads, s.turns) && turn.id !in s.turns && turn.id > 0
    requires turn.parentId == 0 ==> turn.depth == 0
    requires turn.parentId != 0 ==> turn.parentId < turn.id && turn.parentId in s.turns
                                    && turn.depth == s.turns[turn.parentId].depth + 1
    ensures TurnsOk(AddTurn(s, r, turn).turns) && HeadsOk(AddTurn(s, r, turn).heads, AddTurn(s, r, turn).turns)
  {
  }

  /** The new turn is numbered above all others and sits one below its parent. */
  lemma NewTurnFits(f: Foreign, s: State, r: Request, h: Hash)
    requires Core(f, s) && ParentOf(s, r).Ok?
    ensures var turn := NewTurn(s, ParentOf(s, r).value, h);
            && turn.id == s.nextTurnId && turn.id > 0 && turn.id !in s.turns && turn.payloadHash == h
            && (turn.parentId == 0 ==> turn.depth == 0)
            && (turn.parentId != 0 ==> turn.parentId < turn.id && turn.parentId in s.turns
                                       && turn.depth == s.turns[turn.parentId].depth + 1)
  {
  }

  lemma AddTurnKeepsCore(f: Foreign, s: State, r: Request, h: Hash)
    requires Core(f, s) && ParentOf(s, r).Ok? && h in s.blobs
    ensures Core(f, AddTurn(s, r, NewTurn(s, ParentOf(s, r).value, h)))
  {
    var turn := NewTurn(s, ParentOf(s, r).value, h);
    NewTurnFits(f, s, r, h);
    AddTurnKeepsTurns(s, r, turn);
    AddTurnKeepsContent(f, s, r, turn);
    hide TurnsOk, HeadsOk, ParentOf, NewTurn, ContentOk;
  }

  lemma AddTurnKeepsContent(f: Foreign, s: State, r: Request, turn: Turn)
    requires ContentOk(f, s) && turn.payloadHash in s.blobs
    ensures ContentOk(f, AddTurn(s, r, turn))
  {
  }

  lemma AddTurnKeepsLoads(f: Foreign, s: State, r: Request, h: Hash, c: nat)
    requires Core(f, s) && ParentOf(s, r).Ok? && c != r.contextId
    ensures Load(f, AddTurn(s, r, NewTurn(s, ParentOf(s, r).value, h)), c) == Load(f, s, c)
  {
    if c in s.heads {
      OlderTurnsStay(s.turns, NewTurn(s, ParentOf(s, r).value, h), s.heads[c].turnId);
    }
  }

  lemma CacheFirstKeepsCore(f: Foreign, s: State, c: nat, raw: Bytes)
    requires Core(f, s)
    ensures Core(f, CacheFirst(f, s, c, raw).0)
    ensures forall d :: Load(f, CacheFirst(f, s, c, raw).0, d) == Load(f, s, d)
  {
    hide TurnsOk, HeadsOk;
  }

  lemma AppendKeepsCore(f: Foreign, s: State, r: Request)
    requires Core(f, s)
    ensures Core(f, Append(f, s, r).0)
  {
    var raw := RawBytes(f, r);
    if raw.Some? && f.digest(raw.value) == r.contentHash {
      PutKeepsCore(f, s, r.contentHash, raw.value);
      var s1 := s.(blobs := PutIfAbsent(s.blobs, r.contentHash, raw.value));
      hide Core, PutIfAbsent, CacheFirst, AddTurn, NewTurn;
      if ParentOf(s1, r).Ok? {
        AddTurnKeepsCore(f, s1, r, r.contentHash);
        var s2 := AddTurn(s1, r, NewTurn(s1, ParentOf(s1, r).value, r.contentHash));
        CacheFirstKeepsCore(f, s2, r.contextId, raw.value);
      }
    }
  }

  lemma StepKeepsCore(f: Foreign, s: State, op: Op)
    requires Core(f, s)
    ensures Core(f, Step(f, s, op))
  {
    match op
    case CreateOp(base) =>
    case AppendOp(r) =>
      AppendKeepsCore(f, s, r);
    case ReadOp(c) =>
    case PutBlobOp(h, data) =>
      if f.digest(data) == h {
        PutKeepsCore(f, s, h, data);
      }
    case ReopenOp =>
  }

  lemma {:induction false} RunKeepsCore(f: Foreign, s: State, ops: seq<Op>)
    requires Core(f, s)
    ensures Core(f, Run(f, s, ops))
    decreases |ops|
  {
    if ops != [] {
      StepKeepsCore(f, s, ops[0]);
      RunKeepsCore(f, Step(f, s, ops[0]), ops[1..]);
    }
  }

  lemma IndexAfter(parents: map<nat, set<nat>>, m: Metadata, c: nat, d: nat, entry: Option<Metadata>)
    requires IndexAgrees(entry, parents, d) && (d == c ==> entry == None)
    ensures IndexAgrees(if d == c then Some(m) else entry, AddParent(parents, m, c), d)
  {
    var after := AddParent(parents, m, c);
    forall p ensures d in Indexed(after, p) <==> Names(if d == c then Some(m) else entry, p) {
      assert d in Indexed(parents, p) <==> Names(entry, p);
    }
  }

  /** Appending leaves what is cached about every other context as it was. */
  lemma AppendOthers(f: Foreign, s: State, r: Request, h: Hash, raw: Bytes, c: nat)
    requires Core(f, s) && ParentOf(s, r).Ok? && h in s.blobs
    requires CachedOk(f, s, c) && c != r.contextId
    ensures var s1 := AddTurn(s, r, NewTurn(s, ParentOf(s, r).value, h));
            CachedOk(f, CacheFirst(f, s1, r.contextId, raw).0, c)
  {
    var s1 := AddTurn(s, r, NewTurn(s, ParentOf(s, r).value, h));
    AddTurnKeepsCore(f, s, r, h);
    AddTurnKeepsLoads(f, s, r, h, c);
    assert CachedOk(f, s1, c) by { hide Core, Load, IndexAgrees, ParentOf; }
    CacheFirstOthers(f, s1, r.contextId, raw, c);
  }

  lemma CacheFirstOthers(f: Foreign, s: State, filled: nat, raw: Bytes, c: nat)
    requires Core(f, s) && CachedOk(f, s, c) && c != filled
    ensures CachedOk(f, CacheFirst(f, s, filled, raw).0, c)
  {
    CacheFirstKeepsCore(f, s, filled, raw);
    var m := f.extract(raw);
    if m.Some? && (c in s.linear || c !in s.heads) {
      IndexAfter(s.parents, m.value, filled, c, Entry(s, c));
    }
    hide Core, Load, IndexAgrees, AddParent;
  }

  /** The first turn of an empty context: its payload is what a fresh load finds. */
  lemma FirstTurnLoads(f: Foreign, s: State, r: Request, h: Hash, raw: Bytes)
    requires Core(f, s) && ParentOf(s, r).Ok? && h in s.blobs && s.blobs[h] == raw
    requires NewTurn(s, ParentOf(s, r).value, h).parentId == 0
    ensures Load(f, AddTurn(s, r, NewTurn(s, ParentOf(s, r).value, h)), r.contextId) == f.extract(raw)
  {
    var turn := NewTurn(s, ParentOf(s, r).value, h);
    NewTurnFits(f, s, r, h);
    assert FirstTurn(s.turns[turn.id := turn], turn.id) == Some(turn);
  }

  /** A later turn at the head leaves the first turn, and so the fresh load, as it was. */
  lemma LaterTurnLoads(f: Foreign, s: State, r: Request, h: Hash)
    requires Core(f, s) && ParentOf(s, r).Ok? && HasTurns(s, r.contextId)
    requires NewTurn(s, ParentOf(s, r).value, h).parentId == s.heads[r.contextId].turnId
    ensures Load(f, AddTurn(s, r, NewTurn(s, ParentOf(s, r).value, h)), r.contextId) == Load(f, s, r.contextId)
  {
    var turn := NewTurn(s, ParentOf(s, r).value, h);
    NewTurnFits(f, s, r, h);
    OlderTurnsStay(s.turns, turn, turn.parentId);
    assert FirstTurn(s.turns[turn.id := turn], turn.id) == FirstTurn(s.turns, turn.parentId);
  }

  /** Appending to a context fills its cache entry from the payload if it is the first append, and the
      entry is what a fresh load would find unless it was filled too early. */
  lemma AppendSelf(f: Foreign, s: State, r: Request, h: Hash, raw: Bytes)
    requires Core(f, s) && ParentOf(s, r).Ok? && h in s.blobs && s.blobs[h] == raw
    requires CachedOk(f, s, r.contextId)
    ensures var s1 := AddTurn(s, r, NewTurn(s, ParentOf(s, r).value, h));
            CachedOk(f, CacheFirst(f, s1, r.contextId, raw).0, r.contextId)
  {
    hide IndexAgrees, AddParent, FirstTurn, TurnsOk, HeadsOk, ContentOk;
    var c, turn := r.contextId, NewTurn(s, ParentOf(s, r).value, h);
    var s1 := AddTurn(s, r, turn);
    var m := f.extract(raw);
    NewTurnFits(f, s, r, h);
    AddTurnKeepsCore(f, s, r, h);
    CacheFirstKeepsCore(f, s1, c, raw);
    if c in s1.linear && c in s.heads {
      if turn.parentId == 0 {
        FirstTurnLoads(f, s, r, h, raw);
        if m.Some? && c !in s.cache {
          IndexAfter(s.parents, m.value, c, c, None);
        }
      } else {
        LaterTurnLoads(f, s, r, h);
      }
    }
    hide Core, Load, NewTurn, ParentOf;
  }

  lemma PutBlobKeepsCacheOk(f: Foreign, s: State, h: Hash, data: Bytes)
    requires Core(f, s) && CacheOk(f, s)
    ensures CacheOk(f, PutBlob(f, s, h, data))
  {
    if f.digest(data) == h {
      PutKeepsCore(f, s, h, data);
      forall c ensures CachedOk(f, PutBlob(f, s, h, data), c) {
        assert CachedOk(f, s, c);
      }
    }
  }

  lemma AddTurnKeepsCacheOk(f: Foreign, s: State, r: Request, h: Hash, raw: Bytes)
    requires Core(f, s) && CacheOk(f, s) && ParentOf(s, r).Ok? && h in s.blobs && s.blobs[h] == raw
    ensures var s1 := AddTurn(s, r, NewTurn(s, ParentOf(s, r).value, h));
            CacheOk(f, CacheFirst(f, s1, r.contextId, raw).0)
  {
    var s1 := AddTurn(s, r, NewTurn(s, ParentOf(s, r).value, h));
    var s2 := CacheFirst(f, s1, r.contextId, raw).0;
    assert s2.linear <= s2.heads.Keys;
    hide Core, CachedOk, Load, AddTurn, CacheFirst, NewTurn, ParentOf;
    forall c ensures CachedOk(f, s2, c) {
      if c == r.contextId {
        AppendSelf(f, s, r, h, raw);
      } else {
        AppendOthers(f, s, r, h, raw, c);
      }
    }
  }

  lemma AppendKeepsCacheOk(f: Foreign, s: State, r: Request, blobs: set<Bytes>)
    requires Core(f, s) && CacheOk(f, s) && Drawn(s, blobs) && Offered(f, AppendOp(r)) <= blobs
    requires CollisionFree(f.digest, blobs)
    ensures CacheOk(f, Append(f, s, r).0) && Drawn(Append(f, s, r).0, blobs)
  {
    var raw := RawBytes(f, r);
    if raw.Some? && f.digest(raw.value) == r.contentHash && |raw.value| % TWO_TO_THE_32 == r.uncompressedLen {
      var h := r.contentHash;
      var s1 := PutBlob(f, s, h, raw.value);
      PutKeepsCore(f, s, h, raw.value);
      PutBlobKeepsCacheOk(f, s, h, raw.value);
      assert raw.value in blobs;
      assert s1.blobs[h] == raw.value by { hide Core, CacheOk; if h in s.blobs { SameDigest(f, s, h, raw.value, blobs); } }
      hide Core, CacheOk, CollisionFree, RawBytes, AddTurn, CacheFirst, NewTurn, ParentOf;
      if ParentOf(s1, r).Ok? {
        AddTurnKeepsCacheOk(f, s1, r, h, raw.value);
        SameBlobs(f, s1, r, h, raw.value);
      }
    }
  }

  lemma SameDigest(f: Foreign, s: State, h: Hash, raw: Bytes, blobs: set<Bytes>)
    requires ContentOk(f, s) && h in s.blobs && Drawn(s, blobs) && CollisionFree(f.digest, blobs)
    requires raw in blobs && f.digest(raw) == h
    ensures s.blobs[h] == raw
  {
  }

  lemma SameBlobs(f: Foreign, s: State, r: Request, h: Hash, raw: Bytes)
    requires ParentOf(s, r).Ok?
    ensures CacheFirst(f, AddTurn(s, r, NewTurn(s, ParentOf(s, r).value, h)), r.contextId, raw).0.blobs == s.blobs
  {
  }

  lemma CreateKeepsCacheOk(f: Foreign, s: State, base: nat)
    requires Core(f, s) && CacheOk(f, s)
    ensures CacheOk(f, Create(s, base).0)
  {
    var s' := Create(s, base).0;
    forall c ensures CachedOk(f, s', c) {
      assert CachedOk(f, s, c);
      assert c != s.nextContextId ==> Load(f, s', c) == Load(f, s, c);
    }
  }

  lemma ReadKeepsCacheOk(f: Foreign, s: State, c: nat)
    requires Core(f, s) && CacheOk(f, s)
    ensures CacheOk(f, GetMetadata(f, s, c).0)
  {
    var s' := GetMetadata(f, s, c).0;
    forall d ensures CachedOk(f, s', d) {
      assert CachedOk(f, s, d);
      assert Load(f, s', d) == Load(f, s, d);
    }
  }

  lemma ReopenMakesCacheOk(f: Foreign, s: State)
    requires Core(f, s) && CacheOk(f, s)
    ensures CacheOk(f, Reopen(f, s))
  {
    var s' := Reopen(f, s);
    forall c ensures CachedOk(f, s', c) {
      assert Load(f, s', c) == Load(f, s, c);
      forall p ensures c in Indexed(s'.parents, p) <==> Names(Entry(s', c), p) {
        if c in s'.cache && Names(s'.cache[c], p) {
          assert p in ParentsNamed(s'.cache);
        }
      }
    }
  }

  lemma StepKeepsCacheOk(f: Foreign, s: State, op: Op, blobs: set<Bytes>)
    requires Core(f, s) && CacheOk(f, s) && Drawn(s, blobs) && Offered(f, op) <= blobs
    requires CollisionFree(f.digest, blobs)
    ensures CacheOk(f, Step(f, s, op)) && Drawn(Step(f, s, op), blobs)
  {
    match op
    case CreateOp(base) => CreateKeepsCacheOk(f, s, base);
    case AppendOp(r) => AppendKeepsCacheOk(f, s, r, blobs);
    case ReadOp(c) => ReadKeepsCacheOk(f, s, c);
    case PutBlobOp(h, data) => PutBlobKeepsCacheOk(f, s, h, data);
    case ReopenOp => ReopenMakesCacheOk(f, s);
  }

  lemma {:induction false} RunKeepsCacheOk(f: Foreign, s: State, ops: seq<Op>, blobs: set<Bytes>)
    requires Core(f, s) && CacheOk(f, s) && Drawn(s, blobs)
    requires CollisionFree(f.digest, blobs) && forall op :: op in ops ==> Offered(f, op) <= blobs
    ensures CacheOk(f, Run(f, s, ops))
    decreases |ops|
  {
    if ops != [] {
      hide Core, CacheOk, CollisionFree, Step, Drawn;
      StepKeepsCore(f, s, ops[0]);
      StepKeepsCacheOk(f, s, ops[0], blobs);
      RunKeepsCacheOk(f, Step(f, s, ops[0]), ops[1..], blobs);
    }
  }

  // ---- Main results ----

  /** After any run, reading the last turns of a context with their payloads succeeds: it gives the end
      of the chain of depths 0, 1, 2, ..., and each payload has the digest its turn records. */
  lemma PayloadsNeverDangle(f: Foreign, ops: seq<Op>, c: nat, limit: nat)
    requires c in Run(f, EMPTY, ops).heads
    ensures var s := Run(f, EMPTY, ops);
            var chain := Chain(s.turns, s.heads[c].turnId);
            var r := WithPayloads(s.blobs, Last(chain, limit));
            && (forall i :: 0 <= i < |chain| ==> chain[i].depth == i)
            && r.Ok? && |r.value| == Min(limit, |chain|)
            && forall i :: 0 <= i < |r.value| ==>
                 r.value[i].0 == Last(chain, limit)[i] && f.digest(r.value[i].1) == r.value[i].0.payloadHash
  {
    RunKeepsCore(f, EMPTY, ops);
    hide Run;
    PayloadsAt(f, Run(f, EMPTY, ops), c, limit);
  }

  lemma PayloadsAt(f: Foreign, s: State, c: nat, limit: nat)
    requires Core(f, s) && c in s.heads
    ensures var chain := Chain(s.turns, s.heads[c].turnId);
            var r := WithPayloads(s.blobs, Last(chain, limit));
            && (forall i :: 0 <= i < |chain| ==> chain[i].depth == i)
            && r.Ok? && |r.value| == Min(limit, |chain|)
            && forall i :: 0 <= i < |r.value| ==>
                 r.value[i].0 == Last(chain, limit)[i] && f.digest(r.value[i].1) == r.value[i].0.payloadHash
  {
    var chain := Chain(s.turns, s.heads[c].turnId);
    ChainIsStored(f, s, s.heads[c].turnId);
    hide *;
    LastAt(chain, limit);
    var last := Last(chain, limit);
    WithPayloadsAt(s.blobs, last);
  }

  lemma ChainIsStored(f: Foreign, s: State, id: nat)
    requires Core(f, s) && (id == 0 || id in s.turns)
    ensures forall i :: 0 <= i < |Chain(s.turns, id)| ==> Chain(s.turns, id)[i].depth == i
    ensures forall t :: t in Chain(s.turns, id) ==>
              t.payloadHash in s.blobs && f.digest(s.blobs[t.payloadHash]) == t.payloadHash
  {
    if id != 0 {
      ChainDepths(s.turns, id);
      var chain := Chain(s.turns, id);
      hide TurnsOk, HeadsOk, Chain;
      forall i | 0 <= i < |chain|
        ensures chain[i].payloadHash in s.blobs && f.digest(s.blobs[chain[i].payloadHash]) == chain[i].payloadHash
      {
        assert s.turns[chain[i].id] == chain[i];
      }
    }
  }

  lemma WithPayloadsAt(blobs: map<Hash, Bytes>, turns: seq<Turn>)
    requires forall t :: t in turns ==> t.payloadHash in blobs
    ensures WithPayloads(blobs, turns).Ok? && |WithPayloads(blobs, turns).value| == |turns|
    ensures forall i :: 0 <= i < |turns| ==>
              turns[i] in turns && WithPayloads(blobs, turns).value[i] == (turns[i], blobs[turns[i].payloadHash])
  {
  }

  lemma LastAt(chain: seq<Turn>, limit: nat)
    ensures |Last(chain, limit)| == Min(limit, |chain|)
    ensures forall t :: t in Last(chain, limit) ==> t in chain
  {
  }

  /** Appending at the head of a context extends its chain by one turn and leaves every other chain alone. */
  lemma AppendExtendsChain(f: Foreign, s: State, r: Request)
    requires Core(f, s) && Append(f, s, r).1.Ok?
    ensures var (s', result) := Append(f, s, r);
            var turn := result.value.0;
            && s'.heads[r.contextId].turnId == turn.id && turn.id !in s.turns
            && Chain(s'.turns, turn.id) == Chain(s.turns, turn.parentId) + [turn]
            && (r.contextId in s.heads && (r.parentTurnId == 0 || r.parentTurnId == s.heads[r.contextId].turnId)
                ==> turn.parentId == s.heads[r.contextId].turnId)
            && forall c :: c in s.heads && c != r.contextId ==>
                 c in s'.heads && s'.heads[c] == s.heads[c]
                 && Chain(s'.turns, s'.heads[c].turnId) == Chain(s.turns, s.heads[c].turnId)
  {
    var s1 := s.(blobs := PutIfAbsent(s.blobs, r.contentHash, RawBytes(f, r).value));
    var turn := NewTurn(s1, ParentOf(s1, r).value, r.contentHash);
    AppendShape(f, s, r);
    OlderTurnsStay(s.turns, turn, turn.parentId);
    assert (s.turns[turn.id := turn])[turn.id] == turn;
    forall c | c in s.heads && c != r.contextId
      ensures Chain(s.turns[turn.id := turn], s.heads[c].turnId) == Chain(s.turns, s.heads[c].turnId)
    {
      OlderTurnsStay(s.turns, turn, s.heads[c].turnId);
    }
    hide Append, CacheFirst, PutIfAbsent, RawBytes, TurnsOk, ContentOk;
  }

  /** What a successful append does to turns and heads. */
  lemma AppendShape(f: Foreign, s: State, r: Request)
    requires Append(f, s, r).1.Ok?
    ensures RawBytes(f, r).Some?
    ensures var s1 := s.(blobs := PutIfAbsent(s.blobs, r.contentHash, RawBytes(f, r).value));
            var s' := Append(f, s, r).0;
            && ParentOf(s1, r).Ok? && ParentOf(s1, r) == ParentOf(s, r)
            && var turn := NewTurn(s1, ParentOf(s1, r).value, r.contentHash);
               && Append(f, s, r).1.value.0 == turn
               && s'.turns == s.turns[turn.id := turn]
               && s'.heads == s.heads[r.contextId := Head(turn.id, turn.depth)]
  {
  }

  /** While the store is open, a cached entry never changes. */
  lemma CachedEntryStays(f: Foreign, s: State, op: Op, c: nat)
    requires c in s.cache && !op.ReopenOp?
    ensures c in Step(f, s, op).cache && Step(f, s, op).cache[c] == s.cache[c]
  {
  }

  lemma StepKeepsAnnounced(f: Foreign, s: State, op: Op)
    requires AnnouncedOk(s)
    ensures AnnouncedOk(Step(f, s, op))
  {
    hide Load, ParentOf, RawBytes, AddParent, PutIfAbsent;
    var s' := Step(f, s, op);
    if s'.announced != s.announced {
      assert s'.announced == s.announced + [op.request.contextId];
    }
  }

  /** Over any run, reopening included, at most one append to a context returns metadata. */
  lemma {:induction false} AnnouncedOnce(f: Foreign, s: State, ops: seq<Op>)
    requires AnnouncedOk(s)
    ensures AnnouncedOk(Run(f, s, ops))
    decreases |ops|
  {
    if ops != [] {
      StepKeepsAnnounced(f, s, ops[0]);
      hide AnnouncedOk, Step;
      AnnouncedOnce(f, Step(f, s, ops[0]), ops[1..]);
    }
  }

  /** For a context created empty and only ever extended at its head, the cache has an entry from the
      first append on, and it agrees with a fresh load from the first turn iff it was not filled while
      the context was still empty, or there is nothing to find. The parent index agrees with the cache. */
  lemma CacheAgreesIff(f: Foreign, ops: seq<Op>, blobs: set<Bytes>, c: nat)
    requires CollisionFree(f.digest, blobs) && forall op :: op in ops ==> Offered(f, op) <= blobs
    requires var s := Run(f, EMPTY, ops); c in s.linear && HasTurns(s, c)
    ensures var s := Run(f, EMPTY, ops);
            && c in s.cache
            && (s.cache[c] == Load(f, s, c) <==> c !in s.early || Load(f, s, c) == None)
            && IndexAgrees(s.cache[c], s.parents, c)
  {
    EmptyIsOk(f);
    RunKeepsCacheOk(f, EMPTY, ops, blobs);
    var s := Run(f, EMPTY, ops);
    assert CachedOk(f, s, c);
  }

  lemma EmptyIsOk(f: Foreign)
    ensures Core(f, EMPTY) && CacheOk(f, EMPTY) && AnnouncedOk(EMPTY) && Drawn(EMPTY, {})
  {
  }

  /** Reading the metadata of a context before its first append hides it for good: the load finds what
      the payload says, the cache keeps saying nothing. */
  lemma ReadTooEarly(f: Foreign, r: Request)
    requires r.contextId == 1 && r.parentTurnId == 0 && r.compression == 0
    requires |r.payload| % TWO_TO_THE_32 == r.uncompressedLen && f.digest(r.payload) == r.contentHash
    requires f.extract(r.payload).Some?
    ensures var s := Run(f, EMPTY, [CreateOp(0), ReadOp(1), AppendOp(r)]);
            1 in s.linear && 1 in s.cache && s.cache[1] == None && Load(f, s, 1) == f.extract(r.payload)
  {
    var ops := [CreateOp(0), ReadOp(1), AppendOp(r)];
    var s1 := Step(f, EMPTY, CreateOp(0));
    var s2 := Step(f, s1, ReadOp(1));
    var s3 := Step(f, s2, AppendOp(r));
    assert ops[1..] == [ReadOp(1), AppendOp(r)] && ops[1..][1..] == [AppendOp(r)] && ops[1..][1..][1..] == [];
    assert Run(f, s2, [AppendOp(r)]) == s3;
    assert Run(f, s1, [ReadOp(1), AppendOp(r)]) == s3;
    assert FirstTurn(s3.turns, 1) == Some(Turn(1, 0, 0, r.contentHash));
  }

  /** The first append to a forked context caches what its own payload says, while a load goes back to
      the first turn of the context it was forked from: they agree iff the two say the same. */
  lemma ForkedContextIff(f: Foreign, s: State, r: Request)
    requires Core(f, s) && HasTurns(s, r.contextId) && r.contextId !in s.cache
    requires r.parentTurnId == 0 && Append(f, s, r).1.Ok?
    ensures var s' := Append(f, s, r).0;
            && s'.cache[r.contextId] == f.extract(RawBytes(f, r).value)
            && Load(f, s', r.contextId) == Load(f, s, r.contextId)
  {
    hide *;
    ForkedCaches(f, s, r);
    ForkedLoads(f, s, r);
  }

  lemma ForkedCaches(f: Foreign, s: State, r: Request)
    requires r.contextId !in s.cache && Append(f, s, r).1.Ok?
    ensures RawBytes(f, r).Some? && r.contextId in Append(f, s, r).0.cache
    ensures Append(f, s, r).0.cache[r.contextId] == f.extract(RawBytes(f, r).value)
  {
    hide ParentOf, NewTurn, PutIfAbsent, RawBytes;
  }

  lemma ForkedLoads(f: Foreign, s: State, r: Request)
    requires Core(f, s) && HasTurns(s, r.contextId)
    requires r.parentTurnId == 0 && Append(f, s, r).1.Ok?
    ensures Load(f, Append(f, s, r).0, r.contextId) == Load(f, s, r.contextId)
  {
    ForkedFirst(f, s, r);
    FirstTurnExists(s.turns, s.heads[r.contextId].turnId);
    AppendKeepsBlobs(f, s, r);
    var first := FirstTurn(s.turns, s.heads[r.contextId].turnId).value;
    assert first.payloadHash in s.blobs;
    hide TurnsOk, HeadsOk, ContentOk, FirstTurn, Append;
  }

  lemma AppendKeepsBlobs(f: Foreign, s: State, r: Request)
    ensures forall h :: h in s.blobs ==> h in Append(f, s, r).0.blobs && Append(f, s, r).0.blobs[h] == s.blobs[h]
  {
    hide ParentOf, RawBytes, NewTurn;
  }

  /** The first turn is still the one of the context forked from. */
  lemma ForkedFirst(f: Foreign, s: State, r: Request)
    requires Core(f, s) && HasTurns(s, r.contextId)
    requires r.parentTurnId == 0 && Append(f, s, r).1.Ok?
    ensures var s' := Append(f, s, r).0;
            && r.contextId in s'.heads
            && FirstTurn(s'.turns, s'.heads[r.contextId].turnId) == FirstTurn(s.turns, s.heads[r.contextId].turnId)
  {
    var s1 := s.(blobs := PutIfAbsent(s.blobs, r.contentHash, RawBytes(f, r).value));
    var turn := NewTurn(s1, ParentOf(s1, r).value, r.contentHash);
    AppendShape(f, s, r);
    OlderTurnsStay(s.turns, turn, turn.parentId);
    hide ContentOk, Append, PutIfAbsent, RawBytes;
  }
}

/** Contexts made from existing turns, and what an append takes as its parent and its payload. */
module StoreForks {
  import opened Basics
  import opened Store

  /** The other contexts still have the heads and the turns that they had. */
  ghost predicate OthersStay(s: State, s': State, c: nat) {
    forall d :: d in s.heads && d != c ==> d in s'.heads && s'.heads[d] == s.heads[d] && ChainOf(s', d) == ChainOf(s, d)
  }

  /** A context made from a turn starts as that turn and its ancestors: reading its last turns gives those of
      the turn, payloads included. Without a turn it starts empty. Every other context stays. */
  lemma ForkServesBase(f: Foreign, s: State, base: nat, limit: nat)
    requires Core(f, s) && (base == 0 || base in s.turns)
    ensures var (s', r) := Create(s, base);
            && r.Ok? && r.value in s'.heads && Core(f, s') && OthersStay(s, s', r.value)
            && ChainOf(s', r.value) == Chain(s.turns, base)
            && |ChainOf(s', r.value)| == (if base == 0 then 0 else s'.heads[r.value].depth + 1)
            && WithPayloads(s'.blobs, Last(ChainOf(s', r.value), limit))
               == WithPayloads(s.blobs, Last(Chain(s.turns, base), limit))
  {
    CreateShape(f, s, base);
    if base != 0 {
      ChainDepths(s.turns, base);
    }
    hide Core, Chain, Create, Last, WithPayloads;
    var s', c := Create(s, base).0, s.nextContextId;
    assert ChainOf(s', c) == Chain(s.turns, base);
    if base == 0 {
      ChainOfNothing(s.turns);
    }
  }

  lemma ChainOfNothing(turns: map<nat, Turn>)
    ensures Chain(turns, 0) == []
  {
  }

  /** The new context has the next id, and its head is the turn it is made from. */
  lemma CreateShape(f: Foreign, s: State, base: nat)
    requires Core(f, s) && (base == 0 || base in s.turns)
    ensures var (s', r) := Create(s, base);
            && r == Ok(s.nextContextId) && s'.nextContextId == s.nextContextId + 1
            && Core(f, s') && s'.turns == s.turns && s'.blobs == s.blobs
            && s'.heads == s.heads[s.nextContextId := Head(base, if base == 0 then 0 else s.turns[base].depth)]
  {
  }

  lemma UnknownBase(s: State, base: nat)
    requires base != 0 && base !in s.turns
    ensures Create(s, base) == (s, Err(TurnNotFound))
  {
  }

  /** The first append to a new context goes below the turn it was made from. */
  lemma FirstAppendExtendsFork(f: Foreign, s: State, base: nat, r: Request)
    requires Core(f, s) && (base == 0 || base in s.turns)
    requires var (s1, c) := Create(s, base); c == Ok(r.contextId) && r.parentTurnId == 0 && Append(f, s1, r).1.Ok?
    ensures var s2 := Append(f, Create(s, base).0, r).0;
            var turn := Append(f, Create(s, base).0, r).1.value.0;
            && turn.parentId == base && turn.depth == (if base == 0 then 0 else s.turns[base].depth + 1)
            && r.contextId in s2.heads && ChainOf(s2, r.contextId) == Chain(s.turns, base) + [turn]
            && OthersStay(s, s2, r.contextId)
  {
    hide *;
    var s1 := Create(s, base).0;
    CreateShape(f, s, base);
    ForkServesBase(f, s, base, 0);
    AppendExtendsChain(f, s1, r);
    AppendLeavesOthers(f, s1, r);
    AppendPlaces(f, s1, r);
    ChainsThen(s, s1, Append(f, s1, r).0, base, Append(f, s1, r).1.value.0, r.contextId);
  }

  lemma AppendLeavesOthers(f: Foreign, s: State, r: Request)
    requires Core(f, s) && Append(f, s, r).1.Ok?
    ensures OthersStay(s, Append(f, s, r).0, r.contextId)
  {
    AppendExtendsChain(f, s, r);
    hide Core, Chain, Append;
  }

  lemma ChainsThen(s: State, s1: State, s2: State, base: nat, turn: Turn, c: nat)
    requires OthersStay(s, s1, c) && OthersStay(s1, s2, c) && c in s2.heads && s2.heads[c].turnId == turn.id
    requires turn.parentId == base && s1.turns == s.turns && Chain(s2.turns, turn.id) == Chain(s1.turns, turn.parentId) + [turn]
    ensures OthersStay(s, s2, c) && ChainOf(s2, c) == Chain(s.turns, base) + [turn]
  {
    hide Chain;
  }

  // ---- What an append needs and what it records ----

  ghost predicate BytesFit(f: Foreign, r: Request, raw: Bytes) {
    |raw| % TWO_TO_THE_32 == r.uncompressedLen && f.digest(raw) == r.contentHash
  }

  /** The uncompressed payload is the one announced. */
  ghost predicate PayloadFits(f: Foreign, r: Request) {
    || (r.compression == 0 && BytesFit(f, r, r.payload))
    || (r.compression == 1 && f.decompress(r.payload).Some? && BytesFit(f, r, f.decompress(r.payload).value))
  }

  /** An append succeeds iff its payload is the one announced and its parent - the turn asked for, or else
      the head of an existing context - is there. */
  lemma AppendSucceedsIff(f: Foreign, s: State, r: Request)
    requires Core(f, s)
    ensures Append(f, s, r).1.Ok? <==>
              PayloadFits(f, r) && if r.parentTurnId != 0 then r.parentTurnId in s.turns else r.contextId in s.heads
  {
    hide CacheFirst, AddTurn, NewTurn, PutIfAbsent, TurnsOk, ContentOk;
  }

  /** A failed append names the first thing that is wrong: the payload cannot be unpacked, its length or its
      digest is not the one announced, or its parent is not there; only then is the payload kept. */
  lemma AppendFailsHow(f: Foreign, s: State, r: Request, raw: Option<Bytes>)
    requires Core(f, s) && Append(f, s, r).1.Err?
    requires r.compression == 0 ==> raw == Some(r.payload)
    requires r.compression == 1 ==> raw == f.decompress(r.payload)
    requires r.compression > 1 ==> raw == None
    ensures var (s', error) := (Append(f, s, r).0, Append(f, s, r).1.error);
            && (error == BadPayload <==> raw.None?)
            && (error == LengthMismatch <==> raw.Some? && |raw.value| % TWO_TO_THE_32 != r.uncompressedLen)
            && (error == HashMismatch <==> raw.Some? && |raw.value| % TWO_TO_THE_32 == r.uncompressedLen
                                           && f.digest(raw.value) != r.contentHash)
            && (error == ContextNotFound <==> PayloadFits(f, r) && r.parentTurnId == 0 && r.contextId !in s.heads)
            && (error == TurnNotFound <==> PayloadFits(f, r) && r.parentTurnId != 0 && r.parentTurnId !in s.turns)
            && error != BlobNotFound && s' == s.(blobs := s'.blobs)
            && (PayloadFits(f, r) <==> r.contentHash in s'.blobs && error in {ContextNotFound, TurnNotFound})
            && (!PayloadFits(f, r) ==> s' == s)
  {
    hide CacheFirst, AddTurn, NewTurn, ContentOk, TurnsOk;
  }

  /** A successful append numbers its turn next, below the parent asked for or else the head, moves the head
      of the context to it, and stores the uncompressed payload under its digest. */
  lemma AppendPlaces(f: Foreign, s: State, r: Request)
    requires Core(f, s) && Append(f, s, r).1.Ok?
    ensures var s' := Append(f, s, r).0;
            var turn := Append(f, s, r).1.value.0;
            && turn.id == s.nextTurnId && turn.id !in s.turns && r.contextId in s'.heads
            && turn.parentId == (if r.parentTurnId != 0 then r.parentTurnId else s.heads[r.contextId].turnId)
            && turn.depth == (if turn.parentId == 0 then 0 else s.turns[turn.parentId].depth + 1)
            && s'.turns == s.turns[turn.id := turn] && s'.heads[r.contextId] == Head(turn.id, turn.depth)
            && turn.payloadHash == r.contentHash
  {
    AppendShape(f, s, r);
    hide CacheFirst, AddTurn, PutIfAbsent, RawBytes, ContentOk, Append;
  }

  lemma AppendStores(f: Foreign, s: State, r: Request)
    requires Append(f, s, r).1.Ok?
    ensures var s' := Append(f, s, r).0;
            && r.contentHash in s'.blobs
            && (r.contentHash !in s.blobs ==>
                  s'.blobs[r.contentHash] == if r.compression == 0 then r.payload else f.decompress(r.payload).value)
            && forall h :: h in s.blobs ==> h in s'.blobs && s'.blobs[h] == s.blobs[h]
  {
    hide ParentOf, NewTurn;
  }

  /** A turn appended below any turn continues the chain of that turn. */
  lemma AppendBelow(f: Foreign, s: State, r: Request)
    requires Core(f, s) && r.parentTurnId != 0 && Append(f, s, r).1.Ok?
    ensures var s' := Append(f, s, r).0;
            var turn := Append(f, s, r).1.value.0;
            && r.contextId in s'.heads && ChainOf(s', r.contextId) == Chain(s.turns, r.parentTurnId) + [turn]
            && OthersStay(s, s', r.contextId)
  {
    AppendExtendsChain(f, s, r);
    AppendPlaces(f, s, r);
    hide Core, Chain, Append;
  }

  /** A blob is stored iff its digest is the one given for it; what is stored stays. */
  lemma PutBlobStoresIff(f: Foreign, s: State, h: Hash, data: Bytes)
    ensures var s' := PutBlob(f, s, h, data);
            && (h in s'.blobs <==> h in s.blobs || f.digest(data) == h)
            && (h !in s.blobs && f.digest(data) == h ==> s'.blobs[h] == data)
            && forall g :: g in s.blobs ==> g in s'.blobs && s'.blobs[g] == s.blobs[g]
  {
  }

  // ---- Context ids ----

  /** The next context id is above all those in use. */
  ghost predicate IdsBelow(s: State) {
    forall c :: c in s.heads ==> c < s.nextContextId
  }

  /** Every append is to a context that is there. */
  ghost predicate ToKnownContexts(f: Foreign, s: State, ops: seq<Op>)
    decreases |ops|
  {
    ops != [] ==> (ops[0].AppendOp? ==> ops[0].request.contextId in s.heads)
                  && ToKnownContexts(f, Step(f, s, ops[0]), ops[1..])
  }

  lemma StepKeepsIds(f: Foreign, s: State, op: Op)
    requires IdsBelow(s) && (op.AppendOp? ==> op.request.contextId in s.heads)
    ensures IdsBelow(Step(f, s, op))
  {
    hide Load, ParentOf, RawBytes, NewTurn, AddParent, PutIfAbsent;
  }

  lemma {:induction false} RunKeepsIds(f: Foreign, s: State, ops: seq<Op>)
    requires IdsBelow(s) && ToKnownContexts(f, s, ops)
    ensures IdsBelow(Run(f, s, ops))
    decreases |ops|
  {
    if ops != [] {
      StepKeepsIds(f, s, ops[0]);
      hide Step, IdsBelow;
      RunKeepsIds(f, Step(f, s, ops[0]), ops[1..]);
    }
  }

  /** After any run that appends to existing contexts only, a new context gets an id that is not in use. */
  lemma NewContextsAreNew(f: Foreign, ops: seq<Op>, base: nat)
    requires ToKnownContexts(f, EMPTY, ops) && Create(Run(f, EMPTY, ops), base).1.Ok?
    ensures Create(Run(f, EMPTY, ops), base).1.value !in Run(f, EMPTY, ops).heads
  {
    RunKeepsIds(f, EMPTY, ops);
    hide Run;
  }

  /** An append below a given turn makes a context of any id; if that is the next id, the next new context
      takes it over and the appended turn is no longer at its head. */
  lemma TakenOver(f: Foreign, s: State, r: Request)
    requires Core(f, s) && r.parentTurnId != 0 && r.contextId == s.nextContextId && Append(f, s, r).1.Ok?
    ensures var s1 := Append(f, s, r).0;
            && r.contextId in s1.heads && ChainOf(s1, r.contextId) != []
            && Create(s1, 0).1 == Ok(r.contextId) && ChainOf(Create(s1, 0).0, r.contextId) == []
  {
    AppendBelow(f, s, r);
    AppendKeepsNextContext(f, s, r);
    hide Core, Append;
  }

  lemma AppendKeepsNextContext(f: Foreign, s: State, r: Request)
    ensures Append(f, s, r).0.nextContextId == s.nextContextId
  {
    hide ParentOf, RawBytes, NewTurn, AddParent, PutIfAbsent;
  }

  /** Opening the store again puts both counters right behind the largest id in use. */
  lemma ReopenedCounters(f: Foreign, s: State)
    ensures var s' := Reopen(f, s);
            && (forall id :: id in s.turns ==> id < s'.nextTurnId) && (forall c :: c in s.heads ==> c < s'.nextContextId)
            && (if s.turns == map[] then s'.nextTurnId == 1 else s'.nextTurnId - 1 in s.turns)
            && (if s.heads == map[] then s'.nextContextId == 1 else s'.nextContextId - 1 in s.heads)
  {
    assert s.turns != map[] ==> s.turns.Keys != {};
    assert s.heads != map[] ==> s.heads.Keys != {};
    hide Load, ParentsNamed, Names;
  }
}

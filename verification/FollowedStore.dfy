/** Following a context of the turn store: the chains that the store serves are the growing chain that the
    follower needs, as long as the context is only extended at its head. */
module FollowedStore {
  import opened Basics
  import Store
  import Follow

  function Shown(blobs: map<Hash, Bytes>, t: Store.Turn): Follow.Turn {
    Follow.Turn(t.id, t.depth, if t.payloadHash in blobs then blobs[t.payloadHash] else [])
  }

  function ShownAll(blobs: map<Hash, Bytes>, ts: seq<Store.Turn>): seq<Follow.Turn> {
    seq(|ts|, i requires 0 <= i < |ts| => Shown(blobs, ts[i]))
  }

  /** The turns of a context with their payloads. */
  function View(s: Store.State, c: nat): seq<Follow.Turn>
    requires c in s.heads
  {
    ShownAll(s.blobs, Store.ChainOf(s, c))
  }

  lemma ChainIsOk(f: Store.Foreign, s: Store.State, c: nat)
    requires Store.Core(f, s) && c in s.heads
    ensures var chain := Store.ChainOf(s, c);
            && (forall i :: 0 <= i < |chain| ==> chain[i].depth == i && chain[i].id in s.turns && s.turns[chain[i].id] == chain[i])
            && s.heads[c].depth == (if chain == [] then 0 else |chain| - 1)
            && (forall t :: t in chain ==> t.payloadHash in s.blobs)
  {
    if s.heads[c].turnId != 0 {
      Store.ChainDepths(s.turns, s.heads[c].turnId);
    }
    Store.ChainIsStored(f, s, s.heads[c].turnId);
  }

  /** What the store answers to the two reads of a synchronisation is what the follower takes them for: the
      depth of the head, and the last turns of a valid chain. */
  lemma StoreServesTheChain(f: Store.Foreign, s: Store.State, c: nat, limit: nat)
    requires Store.Core(f, s) && c in s.heads && limit > 0
    ensures Follow.ValidChain(View(s, c)) && Follow.HeadDepth(View(s, c)) == s.heads[c].depth
    ensures var answer := Store.WithPayloads(s.blobs, Store.Last(Store.ChainOf(s, c), limit));
            && answer.Ok? && |answer.value| == |Follow.LastTurns(View(s, c), limit)|
            && forall i :: 0 <= i < |answer.value| ==>
                 Follow.LastTurns(View(s, c), limit)[i]
                 == Follow.Turn(answer.value[i].0.id, answer.value[i].0.depth, answer.value[i].1)
  {
    ChainIsOk(f, s, c);
    var chain := Store.ChainOf(s, c);
    hide *;
    ViewIsValid(s, c);
    var last := Store.Last(chain, limit);
    Store.LastAt(chain, limit);
    Store.WithPayloadsAt(s.blobs, last);
    LastIsShown(s, c, limit);
    forall i | 0 <= i < |last|
      ensures Follow.LastTurns(View(s, c), limit)[i] == Follow.Turn(last[i].id, last[i].depth, s.blobs[last[i].payloadHash])
    {
      assert last[i] in last;
      ShownAt(s.blobs, last, i);
    }
  }

  lemma ViewIsValid(s: Store.State, c: nat)
    requires c in s.heads
    requires var chain := Store.ChainOf(s, c);
             && (forall i :: 0 <= i < |chain| ==> chain[i].depth == i && chain[i].id in s.turns && s.turns[chain[i].id] == chain[i])
             && s.heads[c].depth == (if chain == [] then 0 else |chain| - 1)
    ensures Follow.ValidChain(View(s, c)) && Follow.HeadDepth(View(s, c)) == s.heads[c].depth
  {
    hide Store.ChainOf;
  }

  lemma LastIsShown(s: Store.State, c: nat, limit: nat)
    requires c in s.heads && limit > 0
    ensures Follow.LastTurns(View(s, c), limit) == ShownAll(s.blobs, Store.Last(Store.ChainOf(s, c), limit))
  {
    hide Store.ChainOf, Shown;
  }

  lemma ShownAt(blobs: map<Hash, Bytes>, ts: seq<Store.Turn>, i: nat)
    requires i < |ts| && ts[i].payloadHash in blobs
    ensures |ShownAll(blobs, ts)| == |ts|
    ensures ShownAll(blobs, ts)[i] == Follow.Turn(ts[i].id, ts[i].depth, blobs[ts[i].payloadHash])
  {
  }

  lemma ShownPrefix(a: map<Hash, Bytes>, b: map<Hash, Bytes>, ts: seq<Store.Turn>, more: seq<Store.Turn>)
    requires forall h :: h in a ==> h in b && b[h] == a[h]
    requires ts <= more && forall t :: t in ts ==> t.payloadHash in a
    ensures ShownAll(a, ts) <= ShownAll(b, more)
  {
    forall i | 0 <= i < |ts| ensures ShownAll(a, ts)[i] == ShownAll(b, more)[i] {
      assert ts[i] in ts && more[i] == ts[i];
    }
  }

  /** An operation that leaves the context linear extends its chain or leaves it alone. */
  lemma StepExtends(f: Store.Foreign, s: Store.State, op: Store.Op, c: nat)
    requires Store.Core(f, s) && c in s.heads && c in Store.Step(f, s, op).linear
    ensures var s' := Store.Step(f, s, op);
            c in s.linear && c in s'.heads && Store.ChainOf(s, c) <= Store.ChainOf(s', c)
  {
    if op.AppendOp? {
      hide *;
      StepIsAppend(f, s, op);
      AppendExtends(f, s, op.request, c);
    } else {
      hide Store.Core, Store.Chain, Store.Load, Store.Append;
    }
  }

  lemma StepIsAppend(f: Store.Foreign, s: Store.State, op: Store.Op)
    requires op.AppendOp?
    ensures Store.Step(f, s, op) == Store.Append(f, s, op.request).0
  {
    hide Store.Append;
  }

  lemma AppendExtends(f: Store.Foreign, s: Store.State, r: Store.Request, c: nat)
    requires Store.Core(f, s) && c in s.heads && c in Store.Append(f, s, r).0.linear
    ensures var s' := Store.Append(f, s, r).0;
            c in s.linear && c in s'.heads && Store.ChainOf(s, c) <= Store.ChainOf(s', c)
  {
    hide Store.Core, Store.Chain, Store.Append, Store.Step;
    StepIsAppend(f, s, Store.AppendOp(r));
    StepKeepsHead(f, s, Store.AppendOp(r), c);
    AppendLinear(f, s, r, c);
    if Store.Append(f, s, r).1.Ok? {
      Store.AppendExtendsChain(f, s, r);
    }
  }

  lemma AppendLinear(f: Store.Foreign, s: Store.State, r: Store.Request, c: nat)
    requires c in s.heads && c in Store.Append(f, s, r).0.linear
    ensures var (s', result) := Store.Append(f, s, r);
            && c in s.linear
            && (result.Ok? && c == r.contextId ==> s.heads[c].turnId == result.value.0.parentId)
            && (result.Err? ==> s'.heads == s.heads && s'.turns == s.turns)
  {
  }

  lemma StepKeepsBlobs(f: Store.Foreign, s: Store.State, op: Store.Op)
    ensures forall h :: h in s.blobs ==> h in Store.Step(f, s, op).blobs && Store.Step(f, s, op).blobs[h] == s.blobs[h]
  {
    if op.AppendOp? {
      hide *;
      StepIsAppend(f, s, op);
      Store.AppendKeepsBlobs(f, s, op.request);
    } else {
      hide Store.Append, Store.Load;
    }
  }

  lemma {:induction false} RunExtends(f: Store.Foreign, s: Store.State, ops: seq<Store.Op>, c: nat)
    requires Store.Core(f, s) && c in s.heads && c in Store.Run(f, s, ops).linear
    ensures var s' := Store.Run(f, s, ops);
            Store.Core(f, s') && c in s.linear && c in s'.heads && View(s, c) <= View(s', c)
    decreases |ops|
  {
    if ops != [] {
      var next := Store.Step(f, s, ops[0]);
      assert Store.Run(f, s, ops) == Store.Run(f, next, ops[1..]);
      Store.StepKeepsCore(f, s, ops[0]);
      StepKeepsHead(f, s, ops[0], c);
      hide *;
      RunExtends(f, next, ops[1..], c);
      StepExtends(f, s, ops[0], c);
      StepKeepsBlobs(f, s, ops[0]);
      ChainIsOk(f, s, c);
      ViewExtends(s, next, c);
    }
  }

  lemma StepKeepsHead(f: Store.Foreign, s: Store.State, op: Store.Op, c: nat)
    requires c in s.heads
    ensures c in Store.Step(f, s, op).heads
  {
  }

  lemma ViewExtends(s: Store.State, next: Store.State, c: nat)
    requires c in s.heads && c in next.heads && Store.ChainOf(s, c) <= Store.ChainOf(next, c)
    requires forall h :: h in s.blobs ==> h in next.blobs && next.blobs[h] == s.blobs[h]
    requires forall t :: t in Store.ChainOf(s, c) ==> t.payloadHash in s.blobs
    ensures View(s, c) <= View(next, c)
  {
    hide Store.ChainOf, ShownAll;
    ShownPrefix(s.blobs, next.blobs, Store.ChainOf(s, c), Store.ChainOf(next, c));
  }

  // ---- A follower next to the store ----

  /** One synchronisation in a run of the store: the operations before its head read and between its two
      reads, which requests get through, and how many turns the consumer takes. */
  datatype Sync = Sync(before: seq<Store.Op>, between: seq<Store.Op>, headOk: bool, lastOk: bool, room: nat)

  function AtHead(f: Store.Foreign, s: Store.State, y: Sync): Store.State {
    Store.Run(f, s, y.before)
  }

  function AtLast(f: Store.Foreign, s: Store.State, y: Sync): Store.State {
    Store.Run(f, AtHead(f, s, y), y.between)
  }

  function Final(f: Store.Foreign, s: Store.State, syncs: seq<Sync>): Store.State
    decreases |syncs|
  {
    if syncs == [] then s else Final(f, AtLast(f, s, syncs[0]), syncs[1..])
  }

  function Served(s: Store.State, c: nat): seq<Follow.Turn> {
    if c in s.heads then View(s, c) else []
  }

  /** What the follower gets to read. */
  function Rounds(f: Store.Foreign, s: Store.State, c: nat, syncs: seq<Sync>): seq<Follow.Round>
    decreases |syncs|
  {
    if syncs == [] then []
    else
      var y := syncs[0];
      [Follow.Round(Served(AtHead(f, s, y), c), Served(AtLast(f, s, y), c), y.headOk, y.lastOk, y.room)]
      + Rounds(f, AtLast(f, s, y), c, syncs[1..])
  }

  lemma {:induction false} LinearFromTheStart(f: Store.Foreign, s: Store.State, c: nat, syncs: seq<Sync>)
    requires Store.Core(f, s) && c in s.heads && c in Final(f, s, syncs).linear
    ensures c in s.linear && Follow.Grows(View(s, c), Rounds(f, s, c, syncs))
    ensures Follow.Reached(View(s, c), Rounds(f, s, c, syncs)) == Served(Final(f, s, syncs), c)
    decreases |syncs|
  {
    if syncs != [] {
      var y, rest := syncs[0], syncs[1..];
      var one, two := AtHead(f, s, y), AtLast(f, s, y);
      Store.RunKeepsCore(f, s, y.before);
      Store.RunKeepsCore(f, one, y.between);
      RunKeepsHead(f, s, y.before, c);
      RunKeepsHead(f, one, y.between, c);
      hide Store.Core, Store.Run, View;
      LinearFromTheStart(f, two, c, rest);
      RunExtends(f, one, y.between, c);
      RunExtends(f, s, y.before, c);
      StoreServesTheChain(f, two, c, 1);
      hide Follow.ValidChain, Follow.LastTurns;
      assert Rounds(f, s, c, syncs)[1..] == Rounds(f, two, c, rest);
    }
  }

  lemma {:induction false} RunKeepsHead(f: Store.Foreign, s: Store.State, ops: seq<Store.Op>, c: nat)
    requires c in s.heads
    ensures c in Store.Run(f, s, ops).heads
    decreases |ops|
  {
    if ops != [] {
      StepKeepsHead(f, s, ops[0], c);
      hide Store.Step;
      RunKeepsHead(f, Store.Step(f, s, ops[0]), ops[1..], c);
    }
  }

  /** Beside any run of the store that only extends a context at its head, whatever requests fail and
      however small the memory is: what the follower sends is stored under that context, in order of depth
      and each turn once; and it is gap-free exactly when no synchronisation skipped turns because the head
      moved between its two reads. */
  lemma FollowsTheStore(f: Store.Foreign, s: Store.State, c: nat, syncs: seq<Sync>, maxSeen: int)
    requires Store.Core(f, s) && c in s.heads && c in Final(f, s, syncs).linear
    ensures var rounds := Rounds(f, s, c, syncs);
            var sent := Follow.Run(Follow.Fresh(maxSeen), rounds).1;
            && Follow.Increasing(sent)
            && (syncs != [] ==> Follow.FromChain(Served(Final(f, s, syncs), c), sent))
            && (Follow.GapFree(sent) <==> !Follow.SomeRoundSkips(Follow.Fresh(maxSeen), rounds))
  {
    var rounds := Rounds(f, s, c, syncs);
    LinearFromTheStart(f, s, c, syncs);
    assert syncs != [] ==> rounds != [];
    assert Follow.Grows([], rounds);
    assert rounds != [] ==> Follow.Reached([], rounds) == Follow.Reached(View(s, c), rounds);
    hide Store.Core, Rounds, Final, View;
    Follow.NeverRepeats(maxSeen, rounds);
    Follow.GapFreeIff(maxSeen, rounds);
    Follow.FreshInv(maxSeen);
    Follow.RunKeepsInv(Follow.Fresh(maxSeen), [], [], rounds);
    var sent := Follow.Run(Follow.Fresh(maxSeen), rounds).1;
    assert [] + sent == sent;
  }
}

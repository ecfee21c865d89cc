/** The turn follower: it turns lossy `turn_appended` hints into an ordered stream of turns, using a
    head read, a later read of the last turns, and a bounded memory of turn ids already sent. */
module Follow {
  import opened Basics

  datatype Turn = Turn(id: nat, depth: nat, payload: Bytes)

  const DEFAULT_MAX_SEEN: nat := 2048

  /** The answers one synchronisation gets: the depth in the head response, and what the last-turns
      request returns for each limit. None stands for a failed request. */
  datatype Client = Client(headDepth: Option<nat>, getLast: nat -> Option<seq<Turn>>)

  datatype Outcome = Synced | HeadFailed | HeadRegressed | LastFailed | Cancelled

  /** The value of a follow state. */
  datatype State = State(
    hasLast: bool, lastTurnId: nat, lastDepth: nat, seen: set<nat>, seenOrder: seq<nat>, maxSeen: nat)

  function Fresh(maxSeen: int): State {
    State(false, 0, 0, {}, [], if maxSeen <= 0 then DEFAULT_MAX_SEEN else maxSeen)
  }

  // ---- What the methods compute ----

  /** Drop the oldest ids until at most `maxSeen` are left. */
  function Evict(s: State): State
    decreases |s.seenOrder|
  {
    if |s.seenOrder| <= s.maxSeen then s
    else Evict(s.(seenOrder := s.seenOrder[1..], seen := s.seen - {s.seenOrder[0]}))
  }

  function Record(s: State, t: Turn): State {
    var kept := Evict(s.(seen := s.seen + {t.id}, seenOrder := s.seenOrder + [t.id]));
    if !s.hasLast || t.depth >= s.lastDepth then kept.(hasLast := true, lastDepth := t.depth, lastTurnId := t.id)
    else kept
  }

  /** Send the turns not seen before, in order, until `room` sends have gone through. */
  function Send(s: State, turns: seq<Turn>, room: nat): (State, seq<Turn>, Outcome)
    decreases |turns|
  {
    if turns == [] then (s, [], Synced)
    else if turns[0].id in s.seen then Send(s, turns[1..], room)
    else if room == 0 then (s, [], Cancelled)
    else
      var (s', sent, outcome) := Send(Record(s, turns[0]), turns[1..], room - 1);
      (s', [turns[0]] + sent, outcome)
  }

  /** The number of turns to ask for once the head depth is known. */
  function Missing(s: State, headDepth: nat): nat {
    if !s.hasLast then headDepth + 1
    else if headDepth > s.lastDepth then headDepth - s.lastDepth
    else 0
  }

  function Sync(s: State, client: Client, room: nat): (State, seq<Turn>, Outcome) {
    if client.headDepth.None? then (s, [], HeadFailed)
    else if s.hasLast && client.headDepth.value < s.lastDepth then (s, [], HeadRegressed)
    else
      var missing := Missing(s, client.headDepth.value);
      if missing == 0 then (s, [], Synced)
      else
        var turns := client.getLast(missing);
        if turns.None? then (s, [], LastFailed) else Send(s, turns.value, room)
  }

  // ---- The code ----

  class FollowState {
    var hasLast: bool
    var lastSeenTurnId: nat
    var lastSeenDepth: nat
    var seen: set<nat>
    var seenOrder: seq<nat>
    var maxSeen: nat

    ghost function Value(): State
      reads this
    {
      State(hasLast, lastSeenTurnId, lastSeenDepth, seen, seenOrder, maxSeen)
    }

    constructor (maxSeen: int)
      ensures Value() == Fresh(maxSeen)
    {
      hasLast, lastSeenTurnId, lastSeenDepth := false, 0, 0;
      seen, seenOrder := {}, [];
      this.maxSeen := if maxSeen <= 0 then DEFAULT_MAX_SEEN else maxSeen;
    }

    method RecordTurn(turn: Turn)
      modifies this
      ensures Value() == Record(old(Value()), turn)
    {
      seen := seen + {turn.id};
      seenOrder := seenOrder + [turn.id];
      ghost var target := Evict(Value());
      while |seenOrder| > maxSeen
        invariant Evict(Value()) == target
        invariant hasLast == old(hasLast) && lastSeenDepth == old(lastSeenDepth)
        decreases |seenOrder|
      {
        var oldest := seenOrder[0];
        seenOrder := seenOrder[1..];
        seen := seen - {oldest};
      }
      if !hasLast || turn.depth >= lastSeenDepth {
        lastSeenDepth := turn.depth;
        lastSeenTurnId := turn.id;
        hasLast := true;
      }
    }

    method SyncContext(client: Client, room: nat) returns (sent: seq<Turn>, outcome: Outcome)
      modifies this
      ensures (Value(), sent, outcome) == Sync(old(Value()), client, room)
    {
      sent := [];
      if client.headDepth.None? {
        return [], HeadFailed;
      }
      var headDepth := client.headDepth.value;
      if hasLast && headDepth < lastSeenDepth {
        return [], HeadRegressed;
      }
      var missing := 0;
      if hasLast {
        if headDepth > lastSeenDepth {
          missing := headDepth - lastSeenDepth;
        }
      } else {
        missing := headDepth + 1;
      }
      if missing == 0 {
        return [], Synced;
      }
      var answer := client.getLast(missing);
      if answer.None? {
        return [], LastFailed;
      }
      var turns := answer.value;
      ghost var target := Send(Value(), turns, room);
      assert turns[0..] == turns && [] + target.1 == target.1;
      for i := 0 to |turns|
        invariant |sent| <= room
        invariant var (s', rest, o) := Send(Value(), turns[i..], room - |sent|);
                  target == (s', sent + rest, o)
      {
        assert turns[i..][1..] == turns[i + 1..];
        if turns[i].id in seen {
          continue;
        }
        if |sent| == room {
          assert sent + [] == sent;
          return sent, Cancelled;
        }
        ghost var rest := Send(Record(Value(), turns[i]), turns[i + 1..], room - |sent| - 1).1;
        ConcatAssociative(sent, [turns[i]], rest);
        sent := sent + [turns[i]];
        RecordTurn(turns[i]);
      }
      outcome := Synced;
      assert turns[|turns|..] == [] && sent + [] == sent;
    }
  }

  // ---- The server as a chain that only grows ----

  ghost predicate ValidChain(chain: seq<Turn>) {
    && (forall i :: 0 <= i < |chain| ==> chain[i].depth == i)
    && (forall i, j :: 0 <= i < j < |chain| ==> chain[i].id != chain[j].id)
  }

  /** The head depth the server reports: an empty context reports depth 0. */
  function HeadDepth(chain: seq<Turn>): nat {
    if chain == [] then 0 else |chain| - 1
  }

  /** The last turns of the chain, oldest first; the client turns a limit of 0 into 10. */
  function LastTurns(chain: seq<Turn>, limit: nat): seq<Turn> {
    var n := if limit == 0 then 10 else limit;
    if n <= |chain| then chain[|chain| - n..] else chain
  }

  /** One synchronisation: the head is read from `before`, the turns from `after`; either request may
      fail, and the consumer takes `room` turns before it cancels. */
  datatype Round = Round(before: seq<Turn>, after: seq<Turn>, headOk: bool, lastOk: bool, room: nat)

  function ClientOf(r: Round): Client {
    Client(if r.headOk then Some(HeadDepth(r.before)) else None,
           (limit: nat) => if r.lastOk then Some(LastTurns(r.after, limit)) else None)
  }

  /** The chain grows between the two reads of a round and from round to round. */
  ghost predicate Grows(chain: seq<Turn>, rounds: seq<Round>)
    decreases |rounds|
  {
    rounds == [] ||
    (chain <= rounds[0].before <= rounds[0].after && ValidChain(rounds[0].after) && Grows(rounds[0].after, rounds[1..]))
  }

  /** The chain as it stands after a run of rounds. */
  function Reached(chain: seq<Turn>, rounds: seq<Round>): seq<Turn>
    decreases |rounds|
  {
    if rounds == [] then chain else Reached(rounds[0].after, rounds[1..])
  }

  /** Everything sent over a run, and the state at its end. */
  function Run(s: State, rounds: seq<Round>): (State, seq<Turn>)
    decreases |rounds|
  {
    if rounds == [] then (s, [])
    else
      var (s', sent, _) := Sync(s, ClientOf(rounds[0]), rounds[0].room);
      var (s'', later) := Run(s', rounds[1..]);
      (s'', sent + later)
  }

  // ---- Safety ----

  ghost predicate Increasing(sent: seq<Turn>) {
    forall i, j :: 0 <= i < j < |sent| ==> sent[i].depth < sent[j].depth
  }

  ghost predicate FromChain(chain: seq<Turn>, sent: seq<Turn>) {
    forall i :: 0 <= i < |sent| ==> sent[i].depth < |chain| && sent[i] == chain[sent[i].depth]
  }

  ghost predicate Remembered(s: State, sent: seq<Turn>) {
    && (s.hasLast <==> sent != [])
    && (s.hasLast ==> s.lastDepth == sent[|sent| - 1].depth && s.lastTurnId == sent[|sent| - 1].id)
    && (forall id :: id in s.seen ==> exists i :: 0 <= i < |sent| && sent[i].id == id)
  }

  ghost predicate Inv(s: State, sent: seq<Turn>, chain: seq<Turn>) {
    ValidChain(chain) && Increasing(sent) && FromChain(chain, sent) && Remembered(s, sent)
  }

  /** The memory is exactly the last ids sent, at most `maxSeen` of them. */
  ghost predicate MemoryOk(s: State) {
    && |s.seenOrder| <= s.maxSeen
    && s.seen == (set id | id in s.seenOrder)
    && (forall i, j :: 0 <= i < j < |s.seenOrder| ==> s.seenOrder[i] != s.seenOrder[j])
  }

  lemma {:induction false} EvictShrinks(s: State)
    ensures Evict(s).seen <= s.seen
    ensures Evict(s) == s.(seen := Evict(s).seen, seenOrder := Evict(s).seenOrder)
    decreases |s.seenOrder|
  {
    if |s.seenOrder| > s.maxSeen {
      EvictShrinks(s.(seenOrder := s.seenOrder[1..], seen := s.seen - {s.seenOrder[0]}));
    }
  }

  lemma RecordAdvances(s: State, t: Turn)
    requires s.hasLast ==> s.lastDepth < t.depth
    ensures Record(s, t).hasLast && Record(s, t).lastDepth == t.depth
  {
  }

  lemma RecordKeepsInv(s: State, sent: seq<Turn>, chain: seq<Turn>, t: Turn)
    requires Inv(s, sent, chain)
    requires t.depth < |chain| && t == chain[t.depth]
    requires s.hasLast ==> s.lastDepth < t.depth
    ensures Inv(Record(s, t), sent + [t], chain)
  {
    EvictShrinks(s.(seen := s.seen + {t.id}, seenOrder := s.seenOrder + [t.id]));
    var now := sent + [t];
    forall id | id in Record(s, t).seen ensures exists i :: 0 <= i < |now| && now[i].id == id {
      if id == t.id {
        assert now[|sent|].id == id;
      } else {
        var i :| 0 <= i < |sent| && sent[i].id == id;
        assert now[i].id == id;
      }
    }
  }

  /** A turn deeper than everything sent has not been seen. */
  lemma DeeperIsUnseen(s: State, sent: seq<Turn>, chain: seq<Turn>, t: Turn)
    requires Inv(s, sent, chain)
    requires t.depth < |chain| && t == chain[t.depth]
    requires s.hasLast ==> s.lastDepth < t.depth
    ensures t.id !in s.seen
  {
  }

  /** `more` is the part of the chain that starts at depth `from`. */
  ghost predicate Stretch(chain: seq<Turn>, from: nat, more: seq<Turn>) {
    && from + |more| <= |chain|
    && forall i :: 0 <= i < |more| ==> more[i] == chain[from + i]
  }

  lemma StretchCons(chain: seq<Turn>, from: nat, more: seq<Turn>)
    requires from < |chain| && Stretch(chain, from + 1, more)
    ensures Stretch(chain, from, [chain[from]] + more)
  {
  }

  lemma SendFirst(s: State, chain: seq<Turn>, from: nat, room: nat)
    requires from < |chain| && chain[from].id !in s.seen && room > 0
    ensures var (s', more, o) := Send(Record(s, chain[from]), chain[from + 1..], room - 1);
            Send(s, chain[from..], room) == (s', [chain[from]] + more, o)
  {
    assert chain[from..][1..] == chain[from + 1..];
  }

  /** Sending a stretch of the chain beyond the last depth skips nothing: it stops only at the room. */
  lemma {:induction false} SendStretch(s: State, sent: seq<Turn>, chain: seq<Turn>, from: nat, room: nat)
    requires Inv(s, sent, chain) && from <= |chain|
    requires s.hasLast ==> s.lastDepth < from
    ensures Inv(Send(s, chain[from..], room).0, sent + Send(s, chain[from..], room).1, chain)
    ensures Stretch(chain, from, Send(s, chain[from..], room).1)
    ensures |Send(s, chain[from..], room).1| == Min(room, |chain| - from)
    ensures Send(s, chain[from..], room).2 == if room >= |chain| - from then Synced else Cancelled
    decreases |chain| - from
  {
    hide Send, Record, Inv, Stretch, Evict;
    assert sent + [] == sent;
    if from == |chain| || room == 0 {
      SendStops(s, sent, chain, from, room);
    } else {
      var t := chain[from];
      InvFacts(s, sent, chain);
      DeeperIsUnseen(s, sent, chain, t);
      RecordKeepsInv(s, sent, chain, t);
      RecordAdvances(s, t);
      SendFirst(s, chain, from, room);
      SendStretch(Record(s, t), sent + [t], chain, from + 1, room - 1);
      var more := Send(Record(s, t), chain[from + 1..], room - 1).1;
      ConcatAssociative(sent, [t], more);
      StretchCons(chain, from, more);
    }
  }

  /** Nothing is left to send, or no room for it. */
  lemma SendStops(s: State, sent: seq<Turn>, chain: seq<Turn>, from: nat, room: nat)
    requires Inv(s, sent, chain) && from <= |chain| && (from == |chain| || room == 0)
    requires s.hasLast ==> s.lastDepth < from
    ensures Send(s, chain[from..], room) == (s, [], if from == |chain| then Synced else Cancelled)
    ensures Stretch(chain, from, [])
  {
    if from < |chain| {
      DeeperIsUnseen(s, sent, chain, chain[from]);
    }
    hide Inv;
  }

  lemma StretchDepth(chain: seq<Turn>, from: nat, more: seq<Turn>, i: nat)
    requires ValidChain(chain) && Stretch(chain, from, more) && i < |more|
    ensures more[i].depth == from + i
  {
  }

  lemma InvFacts(s: State, sent: seq<Turn>, chain: seq<Turn>)
    requires Inv(s, sent, chain)
    ensures ValidChain(chain) && Increasing(sent)
    ensures NextDepth(s) == if sent == [] then 0 else sent[|sent| - 1].depth + 1
    ensures NextDepth(s) <= |chain|
  {
  }

  lemma InvGrows(s: State, sent: seq<Turn>, chain: seq<Turn>, longer: seq<Turn>)
    requires Inv(s, sent, chain) && chain <= longer && ValidChain(longer)
    ensures Inv(s, sent, longer)
  {
  }

  /** The head is not allowed to move between the reads of a round by more than the round asks for. */
  predicate HeadStill(r: Round) {
    |r.after| <= Max(1, |r.before|)
  }

  /** The depth of the first turn not covered by what has been sent. */
  function NextDepth(s: State): nat {
    if s.hasLast then s.lastDepth + 1 else 0
  }

  /** The depth of the first turn a round is given. */
  function FirstGiven(s: State, r: Round): nat {
    var missing := Missing(s, HeadDepth(r.before));
    if missing <= |r.after| then |r.after| - missing else 0
  }

  /** A round sends nothing, or sends on from the first turn it is given; that turn is never at or below
      the last one sent, and it is the very next one exactly when the head stood still. */
  lemma SyncIsSend(s: State, r: Round)
    requires NextDepth(s) <= |r.before| && r.before <= r.after
    ensures var missing, result := Missing(s, HeadDepth(r.before)), Sync(s, ClientOf(r), r.room);
            && (result == (s, [], HeadFailed) || result == (s, [], LastFailed)
                || (missing == 0 && result == (s, [], Synced))
                || (missing > 0 && result == Send(s, r.after[FirstGiven(s, r)..], r.room)))
            && NextDepth(s) <= FirstGiven(s, r) <= |r.after|
            && (missing > 0 ==> (FirstGiven(s, r) == NextDepth(s) <==> HeadStill(r)))
            && (missing == 0 && HeadStill(r) ==> |r.after| == NextDepth(s))
  {
    var missing := Missing(s, HeadDepth(r.before));
    if missing > 0 {
      assert LastTurns(r.after, missing) == r.after[FirstGiven(s, r)..];
    }
  }

  /** What one round does: the sent turns are a stretch of the chain, it starts right after the last
      turn sent exactly when the head stood still, and it reaches the head unless the round was cut. */
  lemma SyncRound(s: State, sent: seq<Turn>, chain: seq<Turn>, r: Round)
    requires Inv(s, sent, chain) && chain <= r.before <= r.after && ValidChain(r.after)
    ensures var (s', more, o) := Sync(s, ClientOf(r), r.room);
            && Inv(s', sent + more, r.after)
            && (more != [] ==> Stretch(r.after, more[0].depth, more))
            && (more != [] ==> (more[0].depth == NextDepth(s) <==> HeadStill(r)))
            && (o == Synced && HeadStill(r) ==> NextDepth(s) + |more| == |r.after|)
  {
    InvGrows(s, sent, chain, r.after);
    InvFacts(s, sent, chain);
    SyncIsSend(s, r);
    assert sent + [] == sent;
    var from := FirstGiven(s, r);
    hide Inv, ValidChain, Send, Sync, HeadStill, LastTurns, FirstGiven;
    SendStretch(s, sent, r.after, from, r.room);
    var more := Send(s, r.after[from..], r.room).1;
    if more != [] {
      StretchDepth(r.after, from, more, 0);
    }
  }

  lemma {:induction false} RunKeepsInv(s: State, sent: seq<Turn>, chain: seq<Turn>, rounds: seq<Round>)
    requires Inv(s, sent, chain) && Grows(chain, rounds)
    ensures Inv(Run(s, rounds).0, sent + Run(s, rounds).1, Reached(chain, rounds))
    decreases |rounds|
  {
    if rounds == [] {
      assert sent + [] == sent;
    } else {
      var (s', more, _) := Sync(s, ClientOf(rounds[0]), rounds[0].room);
      SyncRound(s, sent, chain, rounds[0]);
      hide Inv, Sync, HeadStill, Stretch;
      RunKeepsInv(s', sent + more, rounds[0].after, rounds[1..]);
      ConcatAssociative(sent, more, Run(s', rounds[1..]).1);
    }
  }

  lemma FreshInv(maxSeen: int)
    ensures Inv(Fresh(maxSeen), [], [])
  {
  }

  lemma InvIsSafe(s: State, sent: seq<Turn>, chain: seq<Turn>)
    requires Inv(s, sent, chain)
    ensures Increasing(sent)
    ensures forall i, j :: 0 <= i < j < |sent| ==> sent[i].id != sent[j].id
  {
  }

  /** Over any run on a growing chain, whatever requests fail, whatever is cancelled and however small
      the memory is: depths increase strictly and no turn is sent twice. */
  lemma NeverRepeats(maxSeen: int, rounds: seq<Round>)
    requires Grows([], rounds)
    ensures var sent := Run(Fresh(maxSeen), rounds).1;
            && Increasing(sent)
            && (forall i, j :: 0 <= i < j < |sent| ==> sent[i].id != sent[j].id)
  {
    hide *;
    FreshInv(maxSeen);
    RunKeepsInv(Fresh(maxSeen), [], [], rounds);
    var (s, sent) := Run(Fresh(maxSeen), rounds);
    assert [] + sent == sent;
    InvIsSafe(s, sent, Reached([], rounds));
  }

  // ---- Completeness ----

  ghost predicate GapFree(sent: seq<Turn>) {
    forall i :: 0 <= i < |sent| ==> sent[i].depth == i
  }

  lemma IncreasingAtLeast(sent: seq<Turn>, i: nat)
    requires Increasing(sent) && i < |sent|
    ensures sent[i].depth >= i
  {
    if i > 0 {
      IncreasingAtLeast(sent, i - 1);
    }
  }

  /** What has been sent has no gap iff its last turn is as deep as its position says. */
  lemma GapFreeByLast(sent: seq<Turn>)
    requires Increasing(sent)
    ensures GapFree(sent) <==> sent == [] || sent[|sent| - 1].depth == |sent| - 1
  {
    if sent != [] && sent[|sent| - 1].depth == |sent| - 1 {
      forall i | 0 <= i < |sent| ensures sent[i].depth == i {
        IncreasingAtLeast(sent, i);
        LastBounds(sent, i);
      }
    }
  }

  lemma {:induction false} LastBounds(sent: seq<Turn>, i: nat)
    requires Increasing(sent) && i < |sent|
    ensures sent[i].depth + (|sent| - 1 - i) <= sent[|sent| - 1].depth
    decreases |sent| - i
  {
    if i < |sent| - 1 {
      LastBounds(sent, i + 1);
    }
  }

  /** A round keeps the stream gap-free exactly when it sends nothing or the head stood still. */
  lemma RoundGap(s: State, sent: seq<Turn>, chain: seq<Turn>, r: Round)
    requires Inv(s, sent, chain) && chain <= r.before <= r.after && ValidChain(r.after)
    ensures var more := Sync(s, ClientOf(r), r.room).1;
            GapFree(sent + more) <==> GapFree(sent) && (more == [] || HeadStill(r))
  {
    SyncRound(s, sent, chain, r);
    var (s', more, _) := Sync(s, ClientOf(r), r.room);
    var now := sent + more;
    InvFacts(s, sent, chain);
    InvFacts(s', now, r.after);
    hide Inv, ValidChain, Sync;
    GapFreeByLast(sent);
    GapFreeByLast(now);
    if more == [] {
      assert now == sent;
    } else {
      var from := more[0].depth;
      StretchDepth(r.after, from, more, |more| - 1);
      assert now[|now| - 1] == more[|more| - 1] && now[|sent|] == more[0];
      IncreasingAtLeast(now, |sent|);
      if sent != [] {
        IncreasingAtLeast(sent, |sent| - 1);
        assert now[|sent| - 1] == sent[|sent| - 1];
      }
    }
  }

  /** Some round of the run sends turns although the head moved between its reads. */
  predicate SomeRoundSkips(s: State, rounds: seq<Round>)
    decreases |rounds|
  {
    if rounds == [] then false
    else
      var (s', more, _) := Sync(s, ClientOf(rounds[0]), rounds[0].room);
      (more != [] && !HeadStill(rounds[0])) || SomeRoundSkips(s', rounds[1..])
  }

  lemma {:induction false} RunGap(s: State, sent: seq<Turn>, chain: seq<Turn>, rounds: seq<Round>)
    requires Inv(s, sent, chain) && Grows(chain, rounds)
    ensures GapFree(sent + Run(s, rounds).1) <==> GapFree(sent) && !SomeRoundSkips(s, rounds)
    decreases |rounds|
  {
    if rounds == [] {
      assert sent + [] == sent;
    } else {
      var (s', more, _) := Sync(s, ClientOf(rounds[0]), rounds[0].room);
      SyncRound(s, sent, chain, rounds[0]);
      RoundGap(s, sent, chain, rounds[0]);
      hide Inv, Sync, HeadStill, Stretch, GapFree;
      RunGap(s', sent + more, rounds[0].after, rounds[1..]);
      ConcatAssociative(sent, more, Run(s', rounds[1..]).1);
    }
  }

  /** A run leaves no gap iff no round sent turns after the head had moved under it. A gap is never
      closed again, because depths only increase. */
  lemma GapFreeIff(maxSeen: int, rounds: seq<Round>)
    requires Grows([], rounds)
    ensures GapFree(Run(Fresh(maxSeen), rounds).1) <==> !SomeRoundSkips(Fresh(maxSeen), rounds)
  {
    RunGap(Fresh(maxSeen), [], [], rounds);
    assert [] + Run(Fresh(maxSeen), rounds).1 == Run(Fresh(maxSeen), rounds).1;
  }

  /** A run with a gap: one turn when the head is read, two when the turns are, so that the first turn is
      pushed out of the answer and never sent, even when a later round finds the head still. */
  lemma GapRun(maxSeen: int, first: Turn, second: Turn)
    requires ValidChain([first, second])
    ensures var moved, still := Round([first], [first, second], true, true, 9), Round([first, second], [first, second], true, true, 9);
            && Grows([], [moved, still])
            && Run(Fresh(maxSeen), [moved, still]).1 == [second] && !GapFree([second])
  {
    var s, both := Fresh(maxSeen), [first, second];
    var moved, still := Round([first], both, true, true, 9), Round(both, both, true, true, 9);
    assert both[1..] == [second] && [second][1..] == [] && both[0] == first && both[1] == second;
    assert LastTurns(both, 1) == [second] && [second] + [] == [second];
    var s' := Record(s, second);
    RecordAdvances(s, second);
    hide Record;
    assert Send(s', [], 8) == (s', [], Synced) && Send(s, [second], 9) == (s', [second], Synced);
    assert ClientOf(moved).headDepth == Some(0) && ClientOf(moved).getLast(1) == Some([second]);
    assert Sync(s, ClientOf(moved), 9) == (s', [second], Synced);
    assert Sync(s', ClientOf(still), 9) == (s', [], Synced);
    hide Sync, Send, ClientOf;
    var none: seq<Turn> := [];
    assert [moved, still][1..] == [still] && [still][1..] == [] && [still][0] == still && none + none == none;
    assert Run(s', []) == (s', none);
    assert Run(s', [still]) == (s', none);
    assert Grows(both, []) && Grows(both, [still]);
  }

  /** When the head stands still in every round, each successful round ends with the whole chain sent,
      whatever failed or was missed before it. */
  lemma CatchesUp(maxSeen: int, rounds: seq<Round>, last: Round)
    requires Grows([], rounds + [last])
    requires forall r :: r in rounds + [last] ==> HeadStill(r)
    requires Sync(Run(Fresh(maxSeen), rounds).0, ClientOf(last), last.room).2 == Synced
    ensures Run(Fresh(maxSeen), rounds + [last]).1 == last.after
  {
    hide *;
    var (s, sent) := Run(Fresh(maxSeen), rounds);
    GrowsSplit([], rounds, last);
    FreshInv(maxSeen);
    RunKeepsInv(Fresh(maxSeen), [], [], rounds);
    assert [] + sent == sent;
    assert forall r :: r in rounds ==> r in rounds + [last];
    NoSkips(Fresh(maxSeen), rounds);
    GapFreeIff(maxSeen, rounds);
    RunSplit(Fresh(maxSeen), rounds, last);
    assert last in rounds + [last];
    RoundCatchesUp(s, sent, Reached([], rounds), last);
  }

  /** A successful round over a head that stands still completes what was gap-free before it. */
  lemma RoundCatchesUp(s: State, sent: seq<Turn>, chain: seq<Turn>, r: Round)
    requires Inv(s, sent, chain) && chain <= r.before <= r.after && ValidChain(r.after)
    requires GapFree(sent) && HeadStill(r) && Sync(s, ClientOf(r), r.room).2 == Synced
    ensures sent + Sync(s, ClientOf(r), r.room).1 == r.after
  {
    SyncRound(s, sent, chain, r);
    RoundGap(s, sent, chain, r);
    InvFacts(s, sent, chain);
    GapFreeByLast(sent);
    var (s', more, _) := Sync(s, ClientOf(r), r.room);
    InvFacts(s', sent + more, r.after);
    hide Inv, ValidChain, Sync, GapFree, FromChain, HeadStill, Increasing;
    Complete(sent + more, r.after);
  }

  lemma Complete(sent: seq<Turn>, chain: seq<Turn>)
    requires GapFree(sent) && FromChain(chain, sent) && |sent| == |chain|
    ensures sent == chain
  {
  }

  lemma {:induction false} GrowsSplit(chain: seq<Turn>, rounds: seq<Round>, last: Round)
    requires Grows(chain, rounds + [last])
    ensures Grows(chain, rounds)
    ensures Reached(chain, rounds) <= last.before <= last.after
    ensures ValidChain(last.after)
    decreases |rounds|
  {
    if rounds != [] {
      assert (rounds + [last])[1..] == rounds[1..] + [last];
      GrowsSplit(rounds[0].after, rounds[1..], last);
    }
  }

  lemma {:induction false} RunSplit(s: State, rounds: seq<Round>, last: Round)
    ensures Run(s, rounds + [last]).1
            == Run(s, rounds).1 + Sync(Run(s, rounds).0, ClientOf(last), last.room).1
    decreases |rounds|
  {
    if rounds == [] {
      assert (rounds + [last])[1..] == [];
    } else {
      assert (rounds + [last])[1..] == rounds[1..] + [last];
      var (s', more, _) := Sync(s, ClientOf(rounds[0]), rounds[0].room);
      RunSplit(s', rounds[1..], last);
      ConcatAssociative(more, Run(s', rounds[1..]).1, Sync(Run(s', rounds[1..]).0, ClientOf(last), last.room).1);
    }
  }

  lemma {:induction false} NoSkips(s: State, rounds: seq<Round>)
    requires forall r :: r in rounds ==> HeadStill(r)
    ensures !SomeRoundSkips(s, rounds)
    decreases |rounds|
  {
    if rounds != [] {
      NoSkips(Sync(s, ClientOf(rounds[0]), rounds[0].room).0, rounds[1..]);
    }
  }

  // ---- The bounded memory ----

  function Latest(ids: seq<nat>, n: nat): seq<nat> {
    if |ids| > n then ids[|ids| - n..] else ids
  }

  function Ids(turns: seq<Turn>): seq<nat> {
    seq(|turns|, i requires 0 <= i < |turns| => turns[i].id)
  }

  lemma LatestIs(ids: seq<nat>, n: nat, k: nat)
    requires |ids| == k + n
    ensures Latest(ids, n) == ids[k..]
  {
  }

  lemma DropTwice(ids: seq<nat>, m: nat, n: nat)
    requires m + n <= |ids|
    ensures ids[m..][n..] == ids[m + n..]
  {
  }

  lemma DropFront(a: seq<nat>, b: seq<nat>, m: nat)
    requires m <= |a|
    ensures (a + b)[m..] == a[m..] + b
  {
  }

  lemma LatestTwice(a: seq<nat>, b: seq<nat>, n: nat)
    ensures Latest(Latest(a, n) + b, n) == Latest(a + b, n)
  {
    if |a| > n {
      hide *;
      var m := |a| - n;
      LatestIs(a, n, m);
      LatestIs(a[m..] + b, n, |b|);
      LatestIs(a + b, n, m + |b|);
      DropFront(a, b, m);
      DropTwice(a + b, m, |b|);
    }
  }

  lemma {:induction false} EvictMemory(s: State)
    requires s.seen == (set id | id in s.seenOrder)
    requires forall i, j :: 0 <= i < j < |s.seenOrder| ==> s.seenOrder[i] != s.seenOrder[j]
    requires |s.seenOrder| <= s.maxSeen + 1
    ensures MemoryOk(Evict(s)) && Evict(s).seenOrder == Latest(s.seenOrder, s.maxSeen) && Evict(s).maxSeen == s.maxSeen
    decreases |s.seenOrder|
  {
    if |s.seenOrder| > s.maxSeen {
      var rest := s.seenOrder[1..];
      assert s.seenOrder == [s.seenOrder[0]] + rest;
      assert s.seen - {s.seenOrder[0]} == (set id | id in rest);
      EvictMemory(s.(seenOrder := rest, seen := s.seen - {s.seenOrder[0]}));
    }
  }

  /** Recording an unseen turn keeps the memory exact and within its bound. */
  lemma RecordMemory(s: State, t: Turn)
    requires MemoryOk(s) && t.id !in s.seen
    ensures MemoryOk(Record(s, t)) && Record(s, t).maxSeen == s.maxSeen
    ensures Record(s, t).seenOrder == Latest(s.seenOrder + [t.id], s.maxSeen)
  {
    var order := s.seenOrder + [t.id];
    assert order[|s.seenOrder|] == t.id;
    forall id | id in s.seen ensures id in order {}
    assert s.seen + {t.id} == (set id | id in order);
    EvictMemory(s.(seen := s.seen + {t.id}, seenOrder := order));
  }

  lemma {:induction false} SendMemory(s: State, turns: seq<Turn>, room: nat)
    requires MemoryOk(s)
    ensures var (s', sent, _) := Send(s, turns, room);
            MemoryOk(s') && s'.maxSeen == s.maxSeen && s'.seenOrder == Latest(s.seenOrder + Ids(sent), s.maxSeen)
    decreases |turns|
  {
    assert s.seenOrder + Ids([]) == s.seenOrder;
    if turns != [] {
      var t := turns[0];
      if t.id in s.seen {
        SendMemory(s, turns[1..], room);
      } else if room > 0 {
        RecordMemory(s, t);
        SendMemory(Record(s, t), turns[1..], room - 1);
        var later := Send(Record(s, t), turns[1..], room - 1).1;
        assert Ids([t] + later) == [t.id] + Ids(later);
        ConcatAssociative(s.seenOrder, [t.id], Ids(later));
        LatestTwice(s.seenOrder + [t.id], Ids(later), s.maxSeen);
        hide Latest, Ids, MemoryOk, Record;
      }
    }
  }

  /** Whatever the server answers, the memory holds exactly the last `maxSeen` of the ids it held before
      followed by the ids sent, each once. */
  lemma SyncMemory(s: State, client: Client, room: nat)
    requires MemoryOk(s)
    ensures var (s', sent, _) := Sync(s, client, room);
            MemoryOk(s') && s'.maxSeen == s.maxSeen && s'.seenOrder == Latest(s.seenOrder + Ids(sent), s.maxSeen)
  {
    assert s.seenOrder + Ids([]) == s.seenOrder;
    if client.headDepth.Some? {
      var turns := client.getLast(Missing(s, client.headDepth.value));
      if turns.Some? {
        SendMemory(s, turns.value, room);
      }
    }
  }

  /** The depth on record is the greatest one sent so far, and the id that of the last turn sent at that depth. */
  ghost predicate LastIs(s: State, sent: seq<Turn>, s': State) {
    && (s'.hasLast <==> s.hasLast || sent != []) && (s.hasLast ==> s.lastDepth <= s'.lastDepth)
    && (forall t :: t in sent ==> t.depth <= s'.lastDepth)
    && (|| (exists k :: LastSentAt(sent, k, s'.lastDepth, s'.lastTurnId))
        || ((forall t :: t in sent ==> t.depth < s'.lastDepth) && s'.lastDepth == s.lastDepth
            && s'.lastTurnId == s.lastTurnId && s'.hasLast == s.hasLast))
  }

  ghost predicate LastSentAt(sent: seq<Turn>, k: int, depth: nat, id: nat) {
    0 <= k < |sent| && sent[k].depth == depth && sent[k].id == id && forall t :: t in sent[k + 1..] ==> t.depth < depth
  }

  /** How the sending ends: cancelled when there was room for no more, else with every turn of the answer sent or
      remembered; and what is on record then. */
  ghost predicate SentWell(
    s: State, turns: seq<Turn>, room: nat, s': State, sent: seq<Turn>, o: Outcome)
  {
    && LastIs(s, sent, s') && |sent| <= room && (forall t :: t in sent ==> t in turns)
    && (o == Cancelled || o == Synced) && (o == Cancelled ==> |sent| == room)
    && (o == Synced ==> forall t :: t in turns ==> t.id in s.seen || t.id in Ids(sent))
  }

  lemma {:induction false} EvictKeepsLast(s: State)
    ensures var s' := Evict(s);
            s'.hasLast == s.hasLast && s'.lastDepth == s.lastDepth && s'.lastTurnId == s.lastTurnId && s'.seen <= s.seen
    decreases |s.seenOrder|
  {
    if |s.seenOrder| > s.maxSeen {
      EvictKeepsLast(s.(seenOrder := s.seenOrder[1..], seen := s.seen - {s.seenOrder[0]}));
    }
  }

  lemma LastIsCons(s: State, t: Turn, s1: State, later: seq<Turn>, s': State)
    requires LastIs(s1, later, s') && s1.hasLast
    requires if !s.hasLast || t.depth >= s.lastDepth then s1.lastDepth == t.depth && s1.lastTurnId == t.id
             else s1.lastDepth == s.lastDepth && s1.lastTurnId == s.lastTurnId
    ensures LastIs(s, [t] + later, s')
  {
    var sent := [t] + later;
    if k :| LastSentAt(later, k, s'.lastDepth, s'.lastTurnId) {
      assert sent[k + 1] == later[k] && sent[k + 1 + 1..] == later[k + 1..];
      assert LastSentAt(sent, k + 1, s'.lastDepth, s'.lastTurnId);
    } else if !s.hasLast || t.depth >= s.lastDepth {
      assert sent[1..] == later;
      assert LastSentAt(sent, 0, s'.lastDepth, s'.lastTurnId);
    }
  }

  lemma RecordSets(s: State, t: Turn)
    ensures var s1 := Record(s, t);
            && s1.seen <= s.seen + {t.id} && s1.hasLast
            && (if !s.hasLast || t.depth >= s.lastDepth then s1.lastDepth == t.depth && s1.lastTurnId == t.id
                else s1.lastDepth == s.lastDepth && s1.lastTurnId == s.lastTurnId)
  {
    EvictKeepsLast(s.(seen := s.seen + {t.id}, seenOrder := s.seenOrder + [t.id]));
    hide Evict;
  }

  lemma SentWellHas(s: State, turns: seq<Turn>, room: nat, s': State, sent: seq<Turn>, o: Outcome)
    requires SentWell(s, turns, room, s', sent, o)
    ensures LastIs(s, sent, s')
  {
  }

  lemma EndsCons(s: State, t: Turn, s1: State, rest: seq<Turn>, room: nat, s': State, later: seq<Turn>, o: Outcome)
    requires SentWell(s1, rest, room, s', later, o) && s1.seen <= s.seen + {t.id} && LastIs(s, [t] + later, s')
    ensures SentWell(s, [t] + rest, room + 1, s', [t] + later, o)
  {
    hide LastIs;
    assert Ids([t] + later) == [t.id] + Ids(later);
  }

  lemma {:induction false} SendEnds(s: State, turns: seq<Turn>, room: nat)
    ensures var (s', sent, o) := Send(s, turns, room); SentWell(s, turns, room, s', sent, o)
    decreases |turns|
  {
    if turns != [] {
      var t, rest := turns[0], turns[1..];
      assert turns == [t] + rest;
      if t.id in s.seen {
        SendEnds(s, rest, room);
      } else if room > 0 {
        var s1 := Record(s, t);
        RecordSets(s, t);
        SendEnds(s1, rest, room - 1);
        var (s', later, o) := Send(s1, rest, room - 1);
        assert Send(s, turns, room) == (s', [t] + later, o);
        SentWellHas(s1, rest, room - 1, s', later, o);
        hide *;
        LastIsCons(s, t, s1, later, s');
        EndsCons(s, t, s1, rest, room - 1, s', later, o);
      } else {
        hide Record;
      }
    }
  }

  // ---- Many contexts ----

  datatype Hint = Hint(kind: string, contextId: nat, turnId: nat, decodes: bool, client: Client, room: nat)

  datatype FollowTurn = FollowTurn(contextId: nat, turn: Turn)

  /** Hints that reach a follow state: the right type, decodable, with nonzero ids. */
  predicate Usable(h: Hint) {
    h.kind == "turn_appended" && h.decodes && h.contextId != 0 && h.turnId != 0
  }

  /** What one context sees of a list of hints, and what it sends. */
  function RunContext(s: State, c: nat, hints: seq<Hint>): (State, seq<Turn>)
    decreases |hints|
  {
    if hints == [] then (s, [])
    else if !Usable(hints[0]) || hints[0].contextId != c then RunContext(s, c, hints[1..])
    else
      var (s', sent, _) := Sync(s, hints[0].client, hints[0].room);
      var (s'', later) := RunContext(s', c, hints[1..]);
      (s'', sent + later)
  }

  /** The turns of one context within the common output. */
  function Of(c: nat, out: seq<FollowTurn>): seq<Turn> {
    if out == [] then []
    else
      var rest := Of(c, out[..|out| - 1]);
      var last := out[|out| - 1];
      if last.contextId == c then rest + [last.turn] else rest
  }

  function Tagged(c: nat, turns: seq<Turn>): (out: seq<FollowTurn>)
    ensures |out| == |turns| && forall i :: 0 <= i < |turns| ==> out[i] == FollowTurn(c, turns[i])
  {
    seq(|turns|, i requires 0 <= i < |turns| => FollowTurn(c, turns[i]))
  }

  lemma {:induction false} OfTagged(out: seq<FollowTurn>, c: nat, d: nat, turns: seq<Turn>)
    ensures Of(d, out + Tagged(c, turns)) == Of(d, out) + if c == d then turns else []
    decreases |turns|
  {
    if turns == [] {
      assert out + Tagged(c, turns) == out;
    } else {
      var init, last := turns[..|turns| - 1], turns[|turns| - 1];
      assert turns == init + [last];
      assert Tagged(c, turns) == Tagged(c, init) + [FollowTurn(c, last)];
      var all := out + Tagged(c, turns);
      assert all[..|all| - 1] == out + Tagged(c, init);
      OfTagged(out, c, d, init);
      if c == d {
        ConcatAssociative(Of(d, out), init, [last]);
      }
    }
  }

  /** Handling one hint moves its turns from what a context is still to send to what it has sent. */
  lemma ContextStep(s: State, s': State, c: nat, hints: seq<Hint>, sent: seq<Turn>, out: seq<FollowTurn>)
    requires hints != []
    requires c != hints[0].contextId || !Usable(hints[0]) ==> s' == s
    requires !Usable(hints[0]) ==> sent == []
    requires c == hints[0].contextId && Usable(hints[0])
             ==> (s', sent) == (Sync(s, hints[0].client, hints[0].room).0, Sync(s, hints[0].client, hints[0].room).1)
    ensures RunContext(s, c, hints).0 == RunContext(s', c, hints[1..]).0
    ensures Of(c, out) + RunContext(s, c, hints).1
            == Of(c, out + Tagged(hints[0].contextId, sent)) + RunContext(s', c, hints[1..]).1
  {
    OfTagged(out, hints[0].contextId, c, sent);
    hide Of, Sync, Tagged;
    ConcatAssociative(Of(c, out), sent, RunContext(s', c, hints[1..]).1);
    assert Of(c, out) + [] == Of(c, out);
  }

  class TurnFollower {
    const maxSeen: int
    var states: map<nat, FollowState>

    constructor (maxSeen: int)
      ensures states == map[] && this.maxSeen == maxSeen
    {
      this.maxSeen := maxSeen;
      states := map[];
    }

    /** Every context has a state object of its own. */
    ghost predicate Separate()
      reads this
    {
      forall c, d :: c in states && d in states && c != d ==> states[c] != states[d]
    }

    /** The follow state of a context; a context without one is as good as fresh. */
    ghost function StateOf(c: nat): State
      reads this, states.Values
    {
      if c in states then states[c].Value() else Fresh(maxSeen)
    }

    method Handle(h: Hint) returns (sent: seq<Turn>)
      requires Separate()
      modifies this, states.Values
      ensures Separate() && fresh(states.Values - old(states.Values))
      ensures forall c :: c != h.contextId || !Usable(h) ==> StateOf(c) == old(StateOf(c))
      ensures !Usable(h) ==> sent == []
      ensures Usable(h) ==> var (s', more, _) := Sync(old(StateOf(h.contextId)), h.client, h.room);
                            StateOf(h.contextId) == s' && sent == more
    {
      if h.kind != "turn_appended" {
        return [];
      }
      if !h.decodes || h.contextId == 0 || h.turnId == 0 {
        return [];
      }
      if h.contextId !in states {
        var state := new FollowState(maxSeen);
        states := states[h.contextId := state];
      }
      var outcome;
      sent, outcome := states[h.contextId].SyncContext(h.client, h.room);
    }

    /** Following all contexts at once does, for each context, what following it alone does. */
    method FollowTurns(hints: seq<Hint>) returns (out: seq<FollowTurn>)
      requires Separate()
      modifies this, states.Values
      ensures forall c :: StateOf(c) == RunContext(old(StateOf(c)), c, hints).0
      ensures forall c :: Of(c, out) == RunContext(old(StateOf(c)), c, hints).1
    {
      out := [];
      assert hints[0..] == hints;
      forall c ensures [] + RunContext(StateOf(c), c, hints).1 == RunContext(StateOf(c), c, hints).1 {}
      for i := 0 to |hints|
        invariant Separate() && fresh(states.Values - old(states.Values))
        invariant forall c :: RunContext(old(StateOf(c)), c, hints).0 == RunContext(StateOf(c), c, hints[i..]).0
        invariant forall c :: RunContext(old(StateOf(c)), c, hints).1
                              == Of(c, out) + RunContext(StateOf(c), c, hints[i..]).1
      {
        label before:
        var sent := Handle(hints[i]);
        assert hints[i..][1..] == hints[i + 1..];
        forall c
          ensures RunContext(old@before(StateOf(c)), c, hints[i..]).0 == RunContext(StateOf(c), c, hints[i + 1..]).0
          ensures Of(c, out) + RunContext(old@before(StateOf(c)), c, hints[i..]).1
                  == Of(c, out + Tagged(hints[i].contextId, sent)) + RunContext(StateOf(c), c, hints[i + 1..]).1
        {
          ContextStep(old@before(StateOf(c)), StateOf(c), c, hints[i..], sent, out);
        }
        out := out + Tagged(hints[i].contextId, sent);
      }
      assert hints[|hints|..] == [];
      forall c ensures Of(c, out) + [] == Of(c, out) {}
    }
  }

  /** Only a decodable turn_appended hint with nonzero ids makes its context synchronise, once; any other hint, or one for
      another context, does nothing to it. */
  lemma HintDoes(s: State, c: nat, h: Hint, hints: seq<Hint>)
    ensures if h.contextId == c && h.kind == "turn_appended" && h.decodes && c != 0 && h.turnId != 0 then
              var (s', sent, _) := Sync(s, h.client, h.room);
              var (s'', later) := RunContext(s', c, hints);
              RunContext(s, c, [h] + hints) == (s'', sent + later)
            else RunContext(s, c, [h] + hints) == RunContext(s, c, hints)
  {
    assert ([h] + hints)[1..] == hints;
    hide Sync;
  }

  /** A follow state starts without memory; its bound is the one asked for, or 2048. */
  lemma FreshIs(maxSeen: int)
    ensures var s := Fresh(maxSeen);
            !s.hasLast && s.seen == {} && s.seenOrder == [] && s.maxSeen == if maxSeen > 0 then maxSeen else 2048
  {
  }

  /** What a synchronisation asks for and reports: nothing is sent when the head cannot be read or lies before
      the last turn sent; no turns are asked for when there are none; and the turns that the server does return
      are sent in order, except those remembered, as far as there is room. */
  lemma SyncReports(s: State, client: Client, room: nat)
    ensures var (s', sent, o) := Sync(s, client, room);
            if client.headDepth.None? then o == HeadFailed && sent == [] && s' == s
            else if s.hasLast && client.headDepth.value < s.lastDepth then o == HeadRegressed && sent == [] && s' == s
            else if s.hasLast && client.headDepth.value == s.lastDepth then o == Synced && sent == [] && s' == s
            else
              var asked := if s.hasLast then client.headDepth.value - s.lastDepth else client.headDepth.value + 1;
              match client.getLast(asked)
              case None => o == LastFailed && sent == [] && s' == s
              case Some(turns) => (s', sent, o) == Send(s, turns, room) && SentWell(s, turns, room, s', sent, o)
  {
    if client.headDepth.Some? {
      var asked := if s.hasLast then client.headDepth.value - s.lastDepth else client.headDepth.value + 1;
      if asked > 0 && client.getLast(asked).Some? {
        SendEnds(s, client.getLast(asked).value, room);
      }
    }
    hide SentWell, Send;
  }
}

/** The delivery worker: a FIFO that retries its front item until it goes through, marks the start and the
    end of every outage with a turn of its own, backs off between failures and drains on shutdown. */
module Delivery {
  import opened Basics

  // Milliseconds.
  const INITIAL_RETRY_DELAY: nat := 250
  const MAX_RETRY_DELAY: nat := 5000
  const SHUTDOWN_DRAIN_TIMEOUT: nat := 5000

  /** Turns made by the producers, and the two marker turns that only the worker makes. */
  datatype Turn = Ordinary(payload: Bytes) | IngestDegraded(queueDepth: nat) | IngestRecovered(queueDepth: nat)

  datatype Item = CreateContext | Append(turn: Turn)

  datatype Message = Enqueue(item: Item) | Shutdown

  /** The value of a worker, with three history variables: every item ever queued, every item that has
      gone through, and the number of failures since the last success. */
  datatype Worker = Worker(
    queue: seq<Item>, contextId: Option<nat>, degraded: bool, recoveryTurnEnqueued: bool, retryDelay: nat,
    shutdown: bool, deadline: Option<nat>,
    pushed: seq<Item>, delivered: seq<Item>, failures: nat)

  const INITIAL: Worker := Worker([], None, false, false, INITIAL_RETRY_DELAY, false, None, [], [], 0)

  /** What the surroundings do during one turn of the loop: the clock at its top, the message received
      when the queue is empty (None when the channel is closed), the messages drained otherwise, the
      clock while messages are handled, the network's answer (the new context id when one is created),
      and the clock after a failure. */
  datatype Tick = Tick(
    top: nat, received: Option<Message>, drained: seq<Message>, handledAt: nat,
    answer: Option<nat>, failedAt: nat)

  // ---- What the methods compute ----

  function Push(w: Worker, item: Item): Worker {
    w.(queue := w.queue + [item], pushed := w.pushed + [item])
  }

  function Handle(w: Worker, m: Message, now: nat): Worker {
    match m
    case Enqueue(item) => Push(w, item)
    case Shutdown => w.(shutdown := true, deadline := Some(now + SHUTDOWN_DRAIN_TIMEOUT))
  }

  function HandleAll(w: Worker, ms: seq<Message>, now: nat): Worker
    decreases |ms|
  {
    if ms == [] then w else HandleAll(Handle(w, ms[0], now), ms[1..], now)
  }

  predicate Expired(w: Worker, now: nat) {
    w.deadline.Some? && now >= w.deadline.value
  }

  predicate Finishes(w: Worker, now: nat) {
    w.shutdown && (w.queue == [] || Expired(w, now))
  }

  /** Whether the item goes through; an append without a context fails before the network is used. */
  predicate GoesThrough(w: Worker, item: Item, answer: Option<nat>) {
    match item
    case CreateContext => answer.Some?
    case Append(_) => w.contextId.Some? && answer.Some?
  }

  function Succeed(w: Worker, answer: Option<nat>): Worker
    requires w.queue != []
  {
    var item := w.queue[0];
    var w1 := w.(queue := w.queue[1..], delivered := w.delivered + [item], failures := 0,
                 contextId := if item.CreateContext? then answer else w.contextId,
                 retryDelay := INITIAL_RETRY_DELAY);
    if w1.degraded && w1.queue == [] && !w1.recoveryTurnEnqueued then
      Push(w1.(recoveryTurnEnqueued := true), Append(IngestRecovered(0)))
    else if w1.degraded && w1.recoveryTurnEnqueued && item.Append? && w1.queue == [] then
      w1.(degraded := false, recoveryTurnEnqueued := false)
    else w1
  }

  function EnterDegraded(w: Worker): Worker {
    if w.degraded then w
    else Push(w.(degraded := true, recoveryTurnEnqueued := false), Append(IngestDegraded(|w.queue|)))
  }

  function Fail(w: Worker): Worker {
    EnterDegraded(w).(retryDelay := Min(w.retryDelay * 2, MAX_RETRY_DELAY), failures := w.failures + 1)
  }

  /** How long the worker sleeps after a failure: never beyond the shutdown deadline. */
  function SleepFor(deadline: Option<nat>, retryDelay: nat, now: nat): nat {
    if deadline.None? then retryDelay
    else Min(if now <= deadline.value then deadline.value - now else 0, retryDelay)
  }

  /** One turn of the loop; the flag says whether the worker stops. */
  function Step(w: Worker, t: Tick): (Worker, bool) {
    if Finishes(w, t.top) then (w.(shutdown := false), true)
    else if w.queue == [] then
      if t.received.None? then (w, true) else (Handle(w, t.received.value, t.handledAt), false)
    else
      var w1 := HandleAll(w, t.drained, t.handledAt);
      HandleAllGrows(w, t.drained, t.handledAt);
      if GoesThrough(w1, w1.queue[0], t.answer) then (Succeed(w1, t.answer), false) else (Fail(w1), false)
  }

  /** The time slept in one turn of the loop: only after a failure. */
  function Slept(w: Worker, t: Tick): nat {
    if Finishes(w, t.top) || w.queue == [] then 0
    else
      var w1 := HandleAll(w, t.drained, t.handledAt);
      HandleAllGrows(w, t.drained, t.handledAt);
      if GoesThrough(w1, w1.queue[0], t.answer) then 0 else SleepFor(w1.deadline, w1.retryDelay, t.failedAt)
  }

  function Run(w: Worker, ticks: seq<Tick>): (Worker, bool)
    decreases |ticks|
  {
    if ticks == [] then (w, false)
    else
      var (w', stopped) := Step(w, ticks[0]);
      if stopped then (w', true) else Run(w', ticks[1..])
  }

  /** Handling messages only ever adds to the back of the queue. */
  lemma {:induction false} HandleAllGrows(w: Worker, ms: seq<Message>, now: nat)
    ensures w.queue <= HandleAll(w, ms, now).queue
    ensures w.pushed <= HandleAll(w, ms, now).pushed
    decreases |ms|
  {
    if ms != [] {
      HandleAllGrows(Handle(w, ms[0], now), ms[1..], now);
    }
  }

  lemma {:induction false} HandleAllFlags(w: Worker, ms: seq<Message>, now: nat)
    ensures var w' := HandleAll(w, ms, now);
            && w'.degraded == w.degraded && w'.recoveryTurnEnqueued == w.recoveryTurnEnqueued
            && w'.contextId == w.contextId && w'.delivered == w.delivered
            && w'.failures == w.failures && w'.retryDelay == w.retryDelay
    decreases |ms|
  {
    if ms != [] {
      HandleAllFlags(Handle(w, ms[0], now), ms[1..], now);
    }
  }

  // ---- The code ----

  class DeliveryWorker {
    var queue: seq<Item>
    var contextId: Option<nat>
    var degraded: bool
    var retryDelay: nat
    var shutdown: bool
    var shutdownDeadline: Option<nat>
    var recoveryTurnEnqueued: bool
    ghost var pushed: seq<Item>
    ghost var delivered: seq<Item>
    ghost var failures: nat

    ghost function Value(): Worker
      reads this
    {
      Worker(queue, contextId, degraded, recoveryTurnEnqueued, retryDelay, shutdown, shutdownDeadline,
             pushed, delivered, failures)
    }

    constructor ()
      ensures Value() == INITIAL
    {
      queue, contextId, degraded, retryDelay := [], None, false, INITIAL_RETRY_DELAY;
      shutdown, shutdownDeadline, recoveryTurnEnqueued := false, None, false;
      pushed, delivered, failures := [], [], 0;
    }

    method PushBack(item: Item)
      modifies `queue, `pushed
      ensures Value() == Push(old(Value()), item)
    {
      queue := queue + [item];
      pushed := pushed + [item];
    }

    method HandleMessage(message: Message, now: nat)
      modifies this
      ensures Value() == Handle(old(Value()), message, now)
    {
      match message
      case Enqueue(item) =>
        PushBack(item);
      case Shutdown =>
        shutdown := true;
        shutdownDeadline := Some(now + SHUTDOWN_DRAIN_TIMEOUT);
    }

    method MaybeFinishShutdown(now: nat) returns (finished: bool)
      modifies `shutdown
      ensures finished == Finishes(old(Value()), now)
      ensures Value() == if finished then old(Value()).(shutdown := false) else old(Value())
    {
      if !shutdown {
        return false;
      }
      if queue == [] || (shutdownDeadline.Some? && now >= shutdownDeadline.value) {
        shutdown := false;
        return true;
      }
      return false;
    }

    method ProcessItem(item: Item, answer: Option<nat>) returns (ok: bool)
      modifies `contextId
      ensures ok == GoesThrough(old(Value()), item, answer)
      ensures contextId == if ok && item.CreateContext? then answer else old(contextId)
    {
      match item
      case CreateContext =>
        if answer.Some? {
          contextId := answer;
        }
        ok := answer.Some?;
      case Append(_) =>
        ok := contextId.Some? && answer.Some?;
    }

    method EnterDegradedMode()
      modifies this
      ensures Value() == EnterDegraded(old(Value()))
    {
      if degraded {
        return;
      }
      degraded := true;
      recoveryTurnEnqueued := false;
      PushBack(Append(IngestDegraded(|queue|)));
    }

    method DrainInbox(messages: seq<Message>, now: nat)
      modifies this
      ensures Value() == HandleAll(old(Value()), messages, now)
    {
      for i := 0 to |messages|
        invariant HandleAll(Value(), messages[i..], now) == HandleAll(old(Value()), messages, now)
      {
        assert messages[i..][1..] == messages[i + 1..];
        HandleMessage(messages[i], now);
      }
    }

    /** Process the front item and react to the answer; the result is the time slept. */
    method DeliverFront(answer: Option<nat>, failedAt: nat) returns (slept: nat)
      requires queue != []
      modifies this
      ensures Value() == if GoesThrough(old(Value()), old(queue)[0], answer)
                         then Succeed(old(Value()), answer) else Fail(old(Value()))
      ensures slept == if GoesThrough(old(Value()), old(queue)[0], answer) then 0
                       else if old(shutdownDeadline).None? then old(retryDelay)
                       else Min(Max(old(shutdownDeadline).value - failedAt, 0), old(retryDelay))
    {
      slept := 0;
      var item := queue[0];
      var ok := ProcessItem(item, answer);
      if ok {
        queue := queue[1..];
        delivered := delivered + [item];
        retryDelay := INITIAL_RETRY_DELAY;
        failures := 0;
        if degraded && queue == [] && !recoveryTurnEnqueued {
          recoveryTurnEnqueued := true;
          PushBack(Append(IngestRecovered(0)));
        } else if degraded && recoveryTurnEnqueued && item.Append? && queue == [] {
          degraded := false;
          recoveryTurnEnqueued := false;
        }
      } else {
        EnterDegradedMode();
        slept := SleepFor(shutdownDeadline, retryDelay, failedAt);
        retryDelay := Min(retryDelay * 2, MAX_RETRY_DELAY);
        failures := failures + 1;
      }
    }

    /** One turn of the loop of the worker, together with the time it sleeps. */
    method RunOnce(tick: Tick) returns (stopped: bool, slept: nat)
      modifies this
      ensures (Value(), stopped) == Step(old(Value()), tick)
      ensures slept == Slept(old(Value()), tick)
    {
      hide Succeed, Fail, HandleAll, GoesThrough;
      slept := 0;
      stopped := MaybeFinishShutdown(tick.top);
      if stopped {
        return;
      }
      if queue == [] {
        if tick.received.None? {
          return true, 0;
        }
        HandleMessage(tick.received.value, tick.handledAt);
        return false, 0;
      }
      HandleAllGrows(Value(), tick.drained, tick.handledAt);
      HandleAllFlags(Value(), tick.drained, tick.handledAt);
      DrainInbox(tick.drained, tick.handledAt);
      slept := DeliverFront(tick.answer, tick.failedAt);
    }

    method RunLoop(ticks: seq<Tick>) returns (stopped: bool)
      modifies this
      ensures (Value(), stopped) == Run(old(Value()), ticks)
    {
      stopped := false;
      for i := 0 to |ticks|
        invariant !stopped
        invariant Run(Value(), ticks[i..]) == Run(old(Value()), ticks)
      {
        assert ticks[i..][1..] == ticks[i + 1..];
        var slept;
        stopped, slept := RunOnce(ticks[i]);
        if stopped {
          return;
        }
      }
    }
  }

  // ---- The invariant ----

  /** The markers among the items: true for a degraded marker, false for a recovered one. */
  function Markers(items: seq<Item>): seq<bool> {
    if items == [] then []
    else
      var rest := Markers(items[..|items| - 1]);
      match items[|items| - 1]
      case Append(IngestDegraded(_)) => rest + [true]
      case Append(IngestRecovered(_)) => rest + [false]
      case _ => rest
  }

  lemma MarkersPush(items: seq<Item>, item: Item)
    ensures Markers(items + [item]) == Markers(items) + Markers([item])
  {
    assert (items + [item])[..|items|] == items;
    assert [item][..0] == [];
  }

  lemma {:induction false} MarkersConcat(a: seq<Item>, b: seq<Item>)
    ensures Markers(a + b) == Markers(a) + Markers(b)
  {
    if b == [] {
      assert a + b == a;
    } else {
      var init, last := b[..|b| - 1], b[|b| - 1];
      assert b == init + [last] && a + b == (a + init) + [last];
      MarkersConcat(a, init);
      MarkersPush(a + init, last);
      MarkersPush(init, last);
    }
  }

  /** Degraded, recovered, degraded, recovered, ... */
  ghost predicate Alternates(marks: seq<bool>) {
    forall i :: 0 <= i < |marks| ==> (marks[i] <==> i % 2 == 0)
  }

  function Pow2(k: nat): nat {
    if k == 0 then 1 else 2 * Pow2(k - 1)
  }

  predicate IsOrdinary(item: Item) {
    item.CreateContext? || item.turn.Ordinary?
  }

  /** Producers enqueue no markers. */
  ghost predicate FromProducers(t: Tick) {
    && (t.received.Some? && t.received.value.Enqueue? ==> IsOrdinary(t.received.value.item))
    && (forall m :: m in t.drained && m.Enqueue? ==> IsOrdinary(m.item))
  }

  ghost predicate Conserves(w: Worker) {
    w.delivered + w.queue == w.pushed
  }

  ghost predicate MarkersInStep(w: Worker) {
    && Alternates(Markers(w.pushed))
    && (|Markers(w.pushed)| % 2 == 1 <==> w.degraded && !w.recoveryTurnEnqueued)
    && (w.recoveryTurnEnqueued ==> w.degraded && |Markers(w.pushed)| >= 2)
    && (w.degraded && !w.recoveryTurnEnqueued ==> w.queue != [])
    && (!w.degraded ==> Markers(w.queue) == [])
  }

  ghost predicate BacksOff(w: Worker) {
    w.retryDelay == Min(INITIAL_RETRY_DELAY * Pow2(w.failures), MAX_RETRY_DELAY)
  }

  /** If the first item ever queued creates the context, nothing goes through before it does; if it is
      an append, nothing ever goes through. */
  ghost predicate ContextFirst(w: Worker) {
    w.contextId.None? ==> w.delivered == []
  }

  ghost predicate Inv(w: Worker) {
    Conserves(w) && MarkersInStep(w) && BacksOff(w) && ContextFirst(w)
  }

  lemma PushOrdinary(w: Worker, item: Item)
    requires Inv(w) && IsOrdinary(item)
    ensures Inv(Push(w, item))
  {
    MarkersPush(w.queue, item);
    MarkersPush(w.pushed, item);
    assert [item][..0] == [] && Markers([item]) == [];
    ConcatAssociative(w.delivered, w.queue, [item]);
    assert Markers(w.queue) + [] == Markers(w.queue) && Markers(w.pushed) + [] == Markers(w.pushed);
  }

  lemma HandleKeepsInv(w: Worker, m: Message, now: nat)
    requires Inv(w) && (m.Enqueue? ==> IsOrdinary(m.item))
    ensures Inv(Handle(w, m, now))
  {
    if m.Enqueue? {
      PushOrdinary(w, m.item);
    }
  }

  lemma {:induction false} HandleAllKeepsInv(w: Worker, ms: seq<Message>, now: nat)
    requires Inv(w) && forall m :: m in ms && m.Enqueue? ==> IsOrdinary(m.item)
    ensures Inv(HandleAll(w, ms, now))
    decreases |ms|
  {
    if ms != [] {
      HandleKeepsInv(w, ms[0], now);
      HandleAllKeepsInv(Handle(w, ms[0], now), ms[1..], now);
    }
  }

  lemma PopMarkers(items: seq<Item>)
    requires items != []
    ensures Markers(items) == Markers([items[0]]) + Markers(items[1..])
  {
    assert items == [items[0]] + items[1..];
    MarkersConcat([items[0]], items[1..]);
  }

  lemma SucceedConserves(w: Worker, answer: Option<nat>)
    requires Conserves(w) && w.queue != []
    ensures Conserves(Succeed(w, answer))
  {
    var item, rest := w.queue[0], w.queue[1..];
    assert w.queue == [item] + rest;
    ConcatAssociative(w.delivered, [item], rest);
    ConcatAssociative(w.delivered + [item], rest, [Append(IngestRecovered(0))]);
  }

  lemma SucceedMarkers(w: Worker, answer: Option<nat>)
    requires MarkersInStep(w) && w.queue != []
    ensures MarkersInStep(Succeed(w, answer))
  {
    var recovered := Append(IngestRecovered(0));
    PopMarkers(w.queue);
    MarkersPush(w.pushed, recovered);
    assert [recovered][..0] == [] && Markers([recovered]) == [false];
    hide Markers, Alternates;
    EmptyMarkers();
    AlternatesPush(Markers(w.pushed), false);
  }

  lemma EmptyMarkers()
    ensures Markers([]) == []
  {
  }

  lemma AlternatesPush(marks: seq<bool>, mark: bool)
    requires Alternates(marks)
    ensures Alternates(marks + [mark]) <==> (mark <==> |marks| % 2 == 0)
  {
    var now := marks + [mark];
    assert now[|marks|] == mark;
    forall i | 0 <= i < |marks| ensures now[i] == marks[i] {}
  }

  lemma SucceedKeepsInv(w: Worker, answer: Option<nat>)
    requires Inv(w) && w.queue != [] && GoesThrough(w, w.queue[0], answer)
    ensures Inv(Succeed(w, answer))
  {
    SucceedConserves(w, answer);
    SucceedMarkers(w, answer);
    hide Conserves, MarkersInStep;
    assert Pow2(0) == 1;
  }

  lemma FailKeepsInv(w: Worker)
    requires Inv(w) && w.queue != []
    ensures Inv(Fail(w))
  {
    if !w.degraded {
      var marker := Append(IngestDegraded(|w.queue|));
      MarkersPush(w.pushed, marker);
      assert [marker][..0] == [] && Markers([marker]) == [true];
      AlternatesPush(Markers(w.pushed), true);
      ConcatAssociative(w.delivered, w.queue, [marker]);
    }
  }

  lemma StepKeepsInv(w: Worker, t: Tick)
    requires Inv(w) && FromProducers(t)
    ensures Inv(Step(w, t).0)
  {
    if !Finishes(w, t.top) {
      if w.queue == [] {
        if t.received.Some? {
          HandleKeepsInv(w, t.received.value, t.handledAt);
        }
      } else {
        var w1 := HandleAll(w, t.drained, t.handledAt);
        HandleAllGrows(w, t.drained, t.handledAt);
        HandleAllKeepsInv(w, t.drained, t.handledAt);
        hide Inv, HandleAll, Succeed, Fail;
        if GoesThrough(w1, w1.queue[0], t.answer) {
          SucceedKeepsInv(w1, t.answer);
        } else {
          FailKeepsInv(w1);
        }
      }
    }
  }

  lemma {:induction false} RunKeepsInv(w: Worker, ticks: seq<Tick>)
    requires Inv(w) && forall t :: t in ticks ==> FromProducers(t)
    ensures Inv(Run(w, ticks).0)
    decreases |ticks|
  {
    if ticks != [] {
      StepKeepsInv(w, ticks[0]);
      if !Step(w, ticks[0]).1 {
        RunKeepsInv(Step(w, ticks[0]).0, ticks[1..]);
      }
    }
  }

  /** The state after any run of a new worker. */
  ghost predicate Reachable(w: Worker) {
    exists ticks :: (forall t :: t in ticks ==> FromProducers(t)) && Run(INITIAL, ticks).0 == w
  }

  lemma ReachableKeepsInv(w: Worker)
    requires Reachable(w)
    ensures Inv(w)
  {
    var ticks :| (forall t :: t in ticks ==> FromProducers(t)) && Run(INITIAL, ticks).0 == w;
    assert Inv(INITIAL);
    RunKeepsInv(INITIAL, ticks);
  }

  // ---- Main results ----

  /** Nothing is lost, duplicated or reordered, whatever fails. */
  lemma ConservesAndOrders(w: Worker)
    requires Reachable(w)
    ensures w.delivered + w.queue == w.pushed
  {
    ReachableKeepsInv(w);
  }

  /** The markers ever queued alternate, starting with a degraded one; an outage without its recovery
      marker has work left; a healthy worker has no marker left to deliver. */
  lemma MarkersAlternate(w: Worker)
    requires Reachable(w)
    ensures Alternates(Markers(w.pushed))
    ensures w.degraded && !w.recoveryTurnEnqueued ==> w.queue != []
    ensures w.degraded && !w.recoveryTurnEnqueued <==> |Markers(w.pushed)| % 2 == 1
    ensures !w.degraded ==> Markers(w.delivered) == Markers(w.pushed)
  {
    ReachableKeepsInv(w);
    MarkersConcat(w.delivered, w.queue);
    assert Markers(w.delivered) + [] == Markers(w.delivered);
  }

  /** The turn of the loop that ends an outage has delivered everything ever queued, the degraded and
      the recovered marker of the outage included. */
  lemma LeavesDegradedOnlyWhenDelivered(w: Worker, t: Tick)
    requires Reachable(w) && FromProducers(t)
    requires w.degraded && !Step(w, t).0.degraded
    ensures var w', marks := Step(w, t).0, Markers(Step(w, t).0.delivered);
            && w'.queue == [] && w'.delivered == w'.pushed
            && |marks| >= 2 && marks[|marks| - 2] && !marks[|marks| - 1]
  {
    ReachableKeepsInv(w);
    StepKeepsInv(w, t);
    LeavingSucceeds(w, t);
    HandleAllKeepsInv(w, t.drained, t.handledAt);
    var w1, w' := HandleAll(w, t.drained, t.handledAt), Step(w, t).0;
    hide Reachable, FromProducers, Step, HandleAll, Markers;
    assert w'.delivered + [] == w'.delivered;
    assert |Markers(w1.pushed)| >= 2 && |Markers(w1.pushed)| % 2 == 0;
  }

  /** An outage ends only by a success with the recovery marker queued and nothing left behind it. */
  lemma LeavingSucceeds(w: Worker, t: Tick)
    requires w.degraded && !Step(w, t).0.degraded
    ensures var w1, w' := HandleAll(w, t.drained, t.handledAt), Step(w, t).0;
            w1.degraded && w1.recoveryTurnEnqueued && w'.pushed == w1.pushed && w'.queue == []
  {
    HandleAllFlags(w, t.drained, t.handledAt);
    hide HandleAll, Min;
  }

  /** The retry delay is the initial one doubled once per failure since the last success, capped. */
  lemma RetryDelay(w: Worker)
    requires Reachable(w)
    ensures w.retryDelay == Min(250 * Pow2(w.failures), 5000)
  {
    ReachableKeepsInv(w);
  }

  /** A turn of the loop whose front item fails, after k failures since the last success, sleeps for
      min(250 * 2^k, 5000) milliseconds, or until the shutdown deadline if that comes first; any other turn of
      the loop does not sleep. */
  lemma FailureSleeps(w: Worker, t: Tick)
    requires Reachable(w)
    ensures var w' := Step(w, t).0;
            var backoff := Min(250 * Pow2(w.failures), 5000);
            if w'.failures != w.failures + 1 then Slept(w, t) == 0
            else Slept(w, t) == if w'.deadline.None? then backoff else Min(Max(w'.deadline.value - t.failedAt, 0), backoff)
  {
    RetryDelay(w);
    HandleAllFlags(w, t.drained, t.handledAt);
    HandleAllGrows(w, t.drained, t.handledAt);
    hide HandleAll, Reachable, Pow2, GoesThrough;
  }

  /** The worker stops iff the channel is closed under an empty queue, or shutdown was requested and the queue
      is empty or the deadline has come; then the request has been answered and the queue is as it was. */
  lemma StopsIff(w: Worker, t: Tick)
    ensures Step(w, t).1 <==>
              || (w.queue == [] && t.received.None?)
              || (w.shutdown && (w.queue == [] || (w.deadline.Some? && w.deadline.value <= t.top)))
    ensures Step(w, t).1 ==> Step(w, t).0 == w.(shutdown := false)
  {
    hide HandleAll, Succeed, Fail;
  }

  /** A shutdown request leaves five seconds and nothing else changed. */
  lemma ShutdownLeavesFiveSeconds(w: Worker, now: nat)
    ensures var w' := Handle(w, Shutdown, now);
            w'.shutdown && w'.deadline == Some(now + 5000) && w'.queue == w.queue && w'.pushed == w.pushed
            && w'.delivered == w.delivered && w'.degraded == w.degraded && w'.contextId == w.contextId
  {
  }

  /** A failure keeps the queue, and the first one of an outage puts a marker behind it that says how long the
      queue was. */
  lemma FailureMarks(w: Worker, t: Tick)
    requires Step(w, t).0.failures == w.failures + 1
    ensures var queue, w' := HandleAll(w, t.drained, t.handledAt).queue, Step(w, t).0;
            && w'.degraded && w'.delivered == w.delivered
            && w'.queue == if w.degraded then queue else queue + [Append(IngestDegraded(|queue|))]
  {
    HandleAllFlags(w, t.drained, t.handledAt);
    hide HandleAll, GoesThrough, Min;
  }

  /** A success takes the front item; when that empties the queue of a degraded worker, the marker that says
      so follows, unless it has been queued, and when the marker itself was last the outage is over. */
  lemma SuccessMarks(w: Worker, t: Tick)
    requires Step(w, t).0.delivered != w.delivered
    ensures var queue, w' := HandleAll(w, t.drained, t.handledAt).queue, Step(w, t).0;
            && queue != [] && w'.delivered == w.delivered + [queue[0]] && w'.retryDelay == 250
            && w'.queue == queue[1..] + (if w.degraded && |queue| == 1 && !w.recoveryTurnEnqueued
                                         then [Append(IngestRecovered(0))] else [])
            && (w'.degraded <==> w.degraded && !(w.recoveryTurnEnqueued && |queue| == 1 && queue[0].Append?))
  {
    var w1 := HandleAll(w, t.drained, t.handledAt);
    HandleAllFlags(w, t.drained, t.handledAt);
    DeliveredBySuccess(w, t);
    hide HandleAll, Step;
  }

  lemma DeliveredBySuccess(w: Worker, t: Tick)
    requires Step(w, t).0.delivered != w.delivered
    ensures var w1 := HandleAll(w, t.drained, t.handledAt); w1.queue != [] && Step(w, t).0 == Succeed(w1, t.answer)
  {
    HandleAllFlags(w, t.drained, t.handledAt);
    if w.queue != [] {
      HandleAllGrows(w, t.drained, t.handledAt);
    }
    hide HandleAll, GoesThrough, Min, Succeed;
  }

  /** The context is the one that the last creation to go through was answered with. */
  lemma ContextIsTheAnswer(w: Worker, t: Tick)
    ensures var w' := Step(w, t).0;
            && w.delivered <= w'.delivered
            && w'.contextId == if w'.delivered != w.delivered && w'.delivered[|w'.delivered| - 1].CreateContext? then t.answer
                               else w.contextId
  {
    if !Finishes(w, t.top) && w.queue != [] {
      HandleAllFlags(w, t.drained, t.handledAt);
      HandleAllGrows(w, t.drained, t.handledAt);
    }
    hide HandleAll, Min;
  }

  /** An append is processed without a context only if the first item ever queued was an append, and
      then nothing ever goes through. */
  lemma AppendsWaitForContext(w: Worker)
    requires Reachable(w)
    ensures w.queue != [] && w.queue[0].Append? && w.contextId.None?
            ==> w.pushed != [] && w.pushed[0].Append? && w.delivered == []
    ensures w.pushed != [] && w.pushed[0].Append? ==> w.contextId.None? && w.delivered == []
  {
    ReachableKeepsInv(w);
    if w.queue != [] && w.queue[0].Append? && w.contextId.None? {
      assert w.pushed == [] + w.queue;
    }
    if w.pushed != [] && w.pushed[0].Append? {
      ReachableBlocked(w);
    }
  }

  /** While an append heads everything ever queued, the worker is stuck. */
  ghost predicate Blocked(w: Worker) {
    w.pushed != [] && w.pushed[0].Append? ==> w.contextId.None? && w.delivered == []
  }

  ghost predicate EmptyStart(w: Worker) {
    w.pushed == [] ==> w.contextId.None? && w.delivered == []
  }

  lemma StepKeepsBlocked(w: Worker, t: Tick)
    requires Inv(w) && Blocked(w) && EmptyStart(w) && FromProducers(t)
    ensures Blocked(Step(w, t).0) && EmptyStart(Step(w, t).0)
  {
    hide MarkersInStep, BacksOff;
    if !Finishes(w, t.top) && w.queue != [] {
      var w1 := HandleAll(w, t.drained, t.handledAt);
      HandleAllFlags(w, t.drained, t.handledAt);
      HandleAllGrows(w, t.drained, t.handledAt);
      HandleAllKeepsInv(w, t.drained, t.handledAt);
      hide HandleAll;
      assert w.pushed[0] == w1.pushed[0];
      var front := w1.queue[0];
      if w1.pushed[0].Append? {
        assert [] + w1.queue == w1.queue;
        assert !GoesThrough(w1, front, t.answer);
      }
    }
  }

  lemma {:induction false} RunKeepsBlocked(w: Worker, ticks: seq<Tick>)
    requires Inv(w) && Blocked(w) && EmptyStart(w) && forall t :: t in ticks ==> FromProducers(t)
    ensures Blocked(Run(w, ticks).0)
    decreases |ticks|
  {
    if ticks != [] {
      StepKeepsBlocked(w, ticks[0]);
      StepKeepsInv(w, ticks[0]);
      if !Step(w, ticks[0]).1 {
        RunKeepsBlocked(Step(w, ticks[0]).0, ticks[1..]);
      }
    }
  }

  lemma ReachableBlocked(w: Worker)
    requires Reachable(w)
    ensures Blocked(w)
  {
    var ticks :| (forall t :: t in ticks ==> FromProducers(t)) && Run(INITIAL, ticks).0 == w;
    RunKeepsBlocked(INITIAL, ticks);
  }

  lemma StepGrows(w: Worker, t: Tick)
    ensures w.pushed <= Step(w, t).0.pushed
  {
    if !Finishes(w, t.top) && w.queue != [] {
      HandleAllGrows(w, t.drained, t.handledAt);
    }
  }

  lemma {:induction false} RunGrows(w: Worker, ticks: seq<Tick>)
    ensures w.pushed <= Run(w, ticks).0.pushed
    decreases |ticks|
  {
    if ticks != [] {
      StepGrows(w, ticks[0]);
      if !Step(w, ticks[0]).1 {
        RunGrows(Step(w, ticks[0]).0, ticks[1..]);
      }
    }
  }

  /** A worker that stops before its shutdown deadline has delivered everything queued at any earlier
      moment of its run, in particular everything queued before the shutdown request. */
  lemma DrainedShutdown(earlier: Worker, ticks: seq<Tick>, t: Tick)
    requires Reachable(earlier) && (forall t :: t in ticks ==> FromProducers(t))
    requires var w := Run(earlier, ticks).0; Step(w, t).1 && !Expired(w, t.top)
    ensures var w := Run(earlier, ticks).0; earlier.pushed <= w.delivered == w.pushed
  {
    var w := Run(earlier, ticks).0;
    ReachableKeepsInv(earlier);
    RunKeepsInv(earlier, ticks);
    RunGrows(earlier, ticks);
    assert w.delivered + [] == w.delivered;
  }

  // ---- Draining ----

  /** A turn of the loop with a working network, no new messages and no expired deadline. */
  predicate Healthy(w: Worker, t: Tick) {
    t.drained == [] && t.answer.Some? && !Expired(w, t.top)
  }

  /** The turns of the loop a worker needs to empty its queue when nothing fails any more. */
  function TurnsToDrain(w: Worker): nat {
    |w.queue| + if w.degraded && !w.recoveryTurnEnqueued then 1 else 0
  }

  predicate CanDeliver(w: Worker) {
    w.contextId.Some? || (w.queue != [] && w.queue[0].CreateContext?)
  }

  lemma HealthyStep(w: Worker, t: Tick)
    requires Inv(w) && w.queue != [] && CanDeliver(w) && Healthy(w, t)
    ensures var (w', stopped) := Step(w, t);
            && !stopped && w' == Succeed(w, t.answer) && w'.contextId.Some? && w'.deadline == w.deadline
            && TurnsToDrain(w') == TurnsToDrain(w) - 1
  {
    assert HandleAll(w, [], t.handledAt) == w;
  }

  /** Once the network works, the queue empties in exactly that many turns, everything has been
      delivered, and the worker is healthy again - unless a context creation was queued behind the
      recovery marker, which leaves it degraded with nothing to do. */
  lemma {:induction false} Drains(w: Worker, ticks: seq<Tick>)
    requires Inv(w) && (w.queue == [] || CanDeliver(w))
    requires |ticks| == TurnsToDrain(w) && forall t :: t in ticks ==> Healthy(w, t)
    ensures var (w', stopped) := Run(w, ticks);
            && !stopped && w'.queue == [] && w'.delivered == w'.pushed
            && (w'.degraded <==> w.degraded && w.recoveryTurnEnqueued
                                 && (w.queue == [] || w.queue[|w.queue| - 1].CreateContext?))
    decreases |ticks|
  {
    if w.queue == [] {
      assert w.delivered + [] == w.delivered;
    } else {
      var t := ticks[0];
      var w' := Step(w, t).0;
      HealthyStep(w, t);
      SucceedKeepsInv(w, t.answer);
      hide Inv, Step, HandleAll, Succeed, Pow2;
      forall u | u in ticks[1..] ensures Healthy(w', u) {
        assert u in ticks;
      }
      Drains(w', ticks[1..]);
    }
  }

  /** The only context creation is the first item ever queued, as the program does it. */
  ghost predicate OneCreation(pushed: seq<Item>) {
    forall i :: 0 < i < |pushed| ==> pushed[i].Append?
  }

  ghost predicate Busy(w: Worker) {
    w.degraded && OneCreation(w.pushed) ==> w.queue != []
  }

  lemma SucceedStaysBusy(w: Worker, answer: Option<nat>)
    requires Inv(w) && w.queue != []
    ensures Busy(Succeed(w, answer))
  {
    var w', item := Succeed(w, answer), w.queue[0];
    if w'.degraded && w'.queue == [] {
      assert w'.pushed == w.pushed && w.queue == [item] && item.CreateContext?;
      assert w.pushed[|w.delivered|] == item;
      if w.delivered == [] {
        assert [] + [item] == [item] && [item][..0] == [];
        assert Markers(w.pushed) == [];
      }
    }
  }

  lemma StepStaysBusy(w: Worker, t: Tick)
    requires Inv(w) && Busy(w) && FromProducers(t)
    ensures Busy(Step(w, t).0)
  {
    if !Finishes(w, t.top) && w.queue != [] {
      var w1 := HandleAll(w, t.drained, t.handledAt);
      HandleAllGrows(w, t.drained, t.handledAt);
      HandleAllKeepsInv(w, t.drained, t.handledAt);
      hide HandleAll, Inv, OneCreation, Succeed;
      SucceedStaysBusy(w1, t.answer);
    }
  }

  lemma {:induction false} RunStaysBusy(w: Worker, ticks: seq<Tick>)
    requires Inv(w) && Busy(w) && forall t :: t in ticks ==> FromProducers(t)
    ensures Busy(Run(w, ticks).0)
    decreases |ticks|
  {
    if ticks != [] {
      assert ticks[0] in ticks;
      StepStaysBusy(w, ticks[0]);
      StepKeepsInv(w, ticks[0]);
      hide Inv, Busy, Step, FromProducers;
      if !Step(w, ticks[0]).1 {
        RunStaysBusy(Step(w, ticks[0]).0, ticks[1..]);
      }
    }
  }

  /** When the context is created first and never again, a degraded worker always has work left; and once the
      network works it ends healthy. */
  lemma NeverStuckWithOneCreation(w: Worker, ticks: seq<Tick>)
    requires Reachable(w) && OneCreation(w.pushed)
    ensures w.degraded ==> w.queue != []
    ensures (w.queue == [] || CanDeliver(w)) && |ticks| == TurnsToDrain(w) && (forall t :: t in ticks ==> Healthy(w, t)) ==>
              Run(w, ticks).0.queue == [] && !Run(w, ticks).0.degraded
  {
    ReachableKeepsInv(w);
    var run :| (forall t :: t in run ==> FromProducers(t)) && Run(INITIAL, run).0 == w;
    RunStaysBusy(INITIAL, run);
    hide Run;
    if (w.queue == [] || CanDeliver(w)) && |ticks| == TurnsToDrain(w) && forall t :: t in ticks ==> Healthy(w, t) {
      Drains(w, ticks);
      if w.degraded && w.recoveryTurnEnqueued && w.queue[|w.queue| - 1].CreateContext? {
        LastIsFirst(w);
      }
    }
  }

  /** A creation at the end of the queue is the first item ever queued, so no marker was queued before. */
  lemma LastIsFirst(w: Worker)
    requires Inv(w) && OneCreation(w.pushed) && w.queue != [] && w.queue[|w.queue| - 1].CreateContext?
    ensures !w.recoveryTurnEnqueued
  {
    CreationIsNoMarker();
    hide Markers, BacksOff, ContextFirst, Alternates;
    var n := |w.pushed|;
    assert w.pushed[n - 1] == w.queue[|w.queue| - 1];
    assert n == 1;
    assert w.pushed == [CreateContext];
  }

  lemma CreationIsNoMarker()
    ensures Markers([CreateContext]) == []
  {
    assert [CreateContext][..0] == [];
  }

  /** That state is reached by a run: the context creation fails once, succeeds, the degraded marker is
      delivered, and a second context creation arrives while the recovery marker is on its way. */
  lemma StuckDegraded()
    ensures exists w :: Reachable(w) && w.degraded && w.queue == []
  {
    var create := Enqueue(CreateContext);
    var t1 := Tick(0, Some(create), [], 0, None, 0);
    var t2 := Tick(0, None, [], 0, None, 0);
    var t3 := Tick(0, None, [], 0, Some(1), 0);
    var t4 := Tick(0, None, [create], 0, Some(1), 0);
    var w1, w2 := Step(INITIAL, t1).0, Step(Step(INITIAL, t1).0, t2).0;
    var w3 := Step(w2, t3).0;
    assert w2.queue == [CreateContext, Append(IngestDegraded(1))] && w2.degraded && !w2.recoveryTurnEnqueued;
    assert w3.queue == [Append(IngestDegraded(1))] && w3.degraded && !w3.recoveryTurnEnqueued;
    var w4 := Step(w3, t3).0;
    assert w4.queue == [Append(IngestRecovered(0))] && w4.degraded && w4.recoveryTurnEnqueued;
    var w5 := Step(w4, t4).0;
    assert HandleAll(w4, [create], 0) == Push(w4, CreateContext);
    assert w5.queue == [CreateContext] && w5.degraded && w5.recoveryTurnEnqueued;
    var w6 := Step(w5, t3).0;
    assert w6.queue == [] && w6.degraded;
    assert Run(INITIAL, []) == (INITIAL, false);
    LiveStep(INITIAL, t1);
    LiveStep(w1, t2);
    LiveStep(w2, t3);
    LiveStep(w3, t3);
    LiveStep(w4, t4);
    LiveStep(w5, t3);
  }

  /** Reached by a run that has not stopped. */
  ghost predicate Live(w: Worker) {
    exists ticks :: (forall t :: t in ticks ==> FromProducers(t)) && Run(INITIAL, ticks) == (w, false)
  }

  lemma LiveStep(w: Worker, t: Tick)
    requires FromProducers(t) && Live(w) && !Step(w, t).1
    ensures Live(Step(w, t).0) && Reachable(Step(w, t).0)
  {
    var ticks :| (forall u :: u in ticks ==> FromProducers(u)) && Run(INITIAL, ticks) == (w, false);
    RunSnoc(INITIAL, ticks, t);
    var all := ticks + [t];
    assert (forall u :: u in all ==> FromProducers(u)) && Run(INITIAL, all) == Step(w, t);
    assert Run(INITIAL, all).0 == Step(w, t).0;
  }

  lemma {:induction false} RunSnoc(w: Worker, ticks: seq<Tick>, t: Tick)
    requires !Run(w, ticks).1
    ensures Run(w, ticks + [t]) == Step(Run(w, ticks).0, t)
    decreases |ticks|
  {
    if ticks == [] {
      assert [] + [t] == [t] && [t][1..] == [];
    } else {
      assert (ticks + [t])[1..] == ticks[1..] + [t];
      RunSnoc(Step(w, ticks[0]).0, ticks[1..], t);
    }
  }
}

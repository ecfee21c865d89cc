/** The history differ of a captured session: each request carries the whole conversation so far, and only
    the part that differs from what was observed before is emitted as turns. */
module SessionHistory {
  import opened Basics

  datatype ToolCall = ToolCall(callId: string, name: string, args: string)

  datatype HistoryItem =
    | UserInput(text: string, files: seq<string>)
    | AssistantTurn(text: string, toolCalls: seq<ToolCall>, model: Option<string>, finishReason: Option<string>)
    | ToolResult(callId: string, content: string, isError: bool)

  /** What a turn carries: a rewrite marker with the two lengths, a history item, or something that has
      no part in the history (session start and end, provider errors, ingest markers). */
  datatype Content = Rewrite(previousLen: nat, newLen: nat) | History(item: HistoryItem) | Aside(title: string)

  datatype Turn = Turn(ordinal: nat, exchangeId: string, content: Content)

  datatype State = State(nextTurnOrdinal: nat, observed: seq<HistoryItem>)

  const FRESH: State := State(0, [])

  function Normalize(item: HistoryItem): HistoryItem {
    match item
    case AssistantTurn(text, toolCalls, _, _) => AssistantTurn(text, toolCalls, None, None)
    case _ => item
  }

  function NormalizeAll(items: seq<HistoryItem>): (r: seq<HistoryItem>)
    ensures |r| == |items| && forall i :: 0 <= i < |items| ==> r[i] == Normalize(items[i])
  {
    seq(|items|, i requires 0 <= i < |items| => Normalize(items[i]))
  }

  function CommonPrefixLen(left: seq<HistoryItem>, right: seq<HistoryItem>): (n: nat)
    ensures n <= |left| && n <= |right| && left[..n] == right[..n]
    ensures n < |left| && n < |right| ==> left[n] != right[n]
  {
    if left == [] || right == [] || left[0] != right[0] then 0
    else
      var rest := CommonPrefixLen(left[1..], right[1..]);
      PrefixOfOneMore(left, rest);
      PrefixOfOneMore(right, rest);
      1 + rest
  }

  lemma PrefixOfOneMore(items: seq<HistoryItem>, n: nat)
    requires n < |items|
    ensures items[..1 + n] == [items[0]] + items[1..][..n]
  {
  }

  // ---- What the methods compute ----

  /** Turns for history items with the ordinals after `ordinal`. */
  function TurnsFor(ordinal: nat, exchangeId: string, items: seq<HistoryItem>): (turns: seq<Turn>)
    ensures |turns| == |items|
    ensures forall i :: 0 <= i < |items| ==> turns[i] == Turn(ordinal + 1 + i, exchangeId, History(items[i]))
  {
    seq(|items|, i requires 0 <= i < |items| => Turn(ordinal + 1 + i, exchangeId, History(items[i])))
  }

  /** The rewrite marker of an observation, if there is one, and what comes after it. */
  function MarkerOf(s: State, e: string, history: seq<HistoryItem>): seq<Turn> {
    if CommonPrefixLen(s.observed, NormalizeAll(history)) < |s.observed|
    then [Turn(s.nextTurnOrdinal + 1, e, Rewrite(|s.observed|, |history|))] else []
  }

  function SuffixOf(s: State, e: string, history: seq<HistoryItem>): seq<Turn> {
    TurnsFor(s.nextTurnOrdinal + |MarkerOf(s, e, history)|, e, history[CommonPrefixLen(s.observed, NormalizeAll(history))..])
  }

  function Observe(s: State, exchangeId: string, history: seq<HistoryItem>): (State, seq<Turn>) {
    var marker, suffix := MarkerOf(s, exchangeId, history), SuffixOf(s, exchangeId, history);
    (State(s.nextTurnOrdinal + |marker| + |suffix|, NormalizeAll(history)), marker + suffix)
  }

  /** The calls that draw ordinals; they run one at a time under the session's lock. */
  datatype Call =
    | ObserveRequest(exchangeId: string, history: seq<HistoryItem>)
    | AppendItem(exchangeId: string, item: HistoryItem)
    | AsideTurn(exchangeId: string, title: string)

  function Step(s: State, c: Call): (State, seq<Turn>) {
    match c
    case ObserveRequest(exchangeId, history) => Observe(s, exchangeId, history)
    case AppendItem(exchangeId, item) =>
      (State(s.nextTurnOrdinal + 1, s.observed + [Normalize(item)]),
       [Turn(s.nextTurnOrdinal + 1, exchangeId, History(item))])
    case AsideTurn(exchangeId, title) =>
      (s.(nextTurnOrdinal := s.nextTurnOrdinal + 1), [Turn(s.nextTurnOrdinal + 1, exchangeId, Aside(title))])
  }

  /** The batch each call emits, and the final state. */
  function Run(s: State, calls: seq<Call>): (State, seq<seq<Turn>>)
    decreases |calls|
  {
    if calls == [] then (s, [])
    else
      var (s', batch) := Step(s, calls[0]);
      var (s'', batches) := Run(s', calls[1..]);
      (s'', [batch] + batches)
  }

  // ---- The code ----

  class SessionRuntime {
    var nextTurnOrdinal: nat
    var observedHistory: seq<HistoryItem>

    ghost function Value(): State
      reads this
    {
      State(nextTurnOrdinal, observedHistory)
    }

    constructor ()
      ensures Value() == FRESH
    {
      nextTurnOrdinal, observedHistory := 0, [];
    }

    method NextOrdinal() returns (ordinal: nat)
      modifies `nextTurnOrdinal
      ensures ordinal == nextTurnOrdinal == old(nextTurnOrdinal) + 1
    {
      nextTurnOrdinal := nextTurnOrdinal + 1;
      ordinal := nextTurnOrdinal;
    }

    method ObserveRequestHistory(exchangeId: string, history: seq<HistoryItem>) returns (turns: seq<Turn>)
      modifies this
      ensures (Value(), turns) == Observe(old(Value()), exchangeId, history)
    {
      var previous := observedHistory;
      var normalized := NormalizeAll(history);
      var prefixLen := CommonPrefixLen(previous, normalized);
      turns := [];
      if prefixLen < |previous| {
        var ordinal := NextOrdinal();
        turns := [Turn(ordinal, exchangeId, Rewrite(|previous|, |history|))];
      }
      var items := EmitItems(exchangeId, history[prefixLen..]);
      turns := turns + items;
      observedHistory := normalized;
    }

    /** The loop that turns the items after the common prefix into turns. */
    method EmitItems(exchangeId: string, items: seq<HistoryItem>) returns (turns: seq<Turn>)
      modifies `nextTurnOrdinal
      ensures turns == TurnsFor(old(nextTurnOrdinal), exchangeId, items)
      ensures nextTurnOrdinal == old(nextTurnOrdinal) + |items|
    {
      turns := [];
      for i := 0 to |items|
        invariant nextTurnOrdinal == old(nextTurnOrdinal) + i && |turns| == i
        invariant forall j :: 0 <= j < i ==> turns[j] == TurnsFor(old(nextTurnOrdinal), exchangeId, items)[j]
      {
        var ordinal := NextOrdinal();
        turns := turns + [Turn(ordinal, exchangeId, History(items[i]))];
      }
    }

    method AppendHistoryItem(exchangeId: string, item: HistoryItem) returns (turn: Turn)
      modifies this
      ensures (Value(), [turn]) == Step(old(Value()), AppendItem(exchangeId, item))
    {
      var ordinal := NextOrdinal();
      turn := Turn(ordinal, exchangeId, History(item));
      observedHistory := observedHistory + [Normalize(item)];
    }

    method EmitAside(exchangeId: string, title: string) returns (turn: Turn)
      modifies this
      ensures (Value(), [turn]) == Step(old(Value()), AsideTurn(exchangeId, title))
    {
      var ordinal := NextOrdinal();
      turn := Turn(ordinal, exchangeId, Aside(title));
    }
  }

  // ---- Replay ----

  /** The history items among the turns, normalised. */
  function ItemsOf(turns: seq<Turn>): seq<HistoryItem> {
    if turns == [] then []
    else (if turns[0].content.History? then [Normalize(turns[0].content.item)] else []) + ItemsOf(turns[1..])
  }

  /** Replay one batch: a leading rewrite marker cuts the view down to the new length minus the items
      that follow it in the batch; then the items are appended. */
  function Replay(view: seq<HistoryItem>, batch: seq<Turn>): seq<HistoryItem> {
    if batch != [] && batch[0].content.Rewrite? then
      var kept := batch[0].content.newLen - |ItemsOf(batch)|;
      (if 0 <= kept <= |view| then view[..kept] else view) + ItemsOf(batch)
    else view + ItemsOf(batch)
  }

  function ReplayAll(view: seq<HistoryItem>, batches: seq<seq<Turn>>): seq<HistoryItem>
    decreases |batches|
  {
    if batches == [] then view else ReplayAll(Replay(view, batches[0]), batches[1..])
  }

  lemma {:induction false} ItemsOfTurns(ordinal: nat, exchangeId: string, items: seq<HistoryItem>)
    ensures ItemsOf(TurnsFor(ordinal, exchangeId, items)) == NormalizeAll(items)
    decreases |items|
  {
    if items != [] {
      var turns := TurnsFor(ordinal, exchangeId, items);
      assert turns[1..] == TurnsFor(ordinal + 1, exchangeId, items[1..]);
      ItemsOfTurns(ordinal + 1, exchangeId, items[1..]);
      assert NormalizeAll(items) == [Normalize(items[0])] + NormalizeAll(items[1..]);
    }
  }

  /** The items of an observation are the new ones, from the first difference on. */
  lemma ObservedItems(s: State, exchangeId: string, history: seq<HistoryItem>)
    ensures var n := CommonPrefixLen(s.observed, NormalizeAll(history));
            ItemsOf(Observe(s, exchangeId, history).1) == NormalizeAll(history)[n..]
  {
    MarkerRewrites(s, exchangeId, history);
    hide *;
    ObserveParts(s, exchangeId, history);
    MarkersHaveNoItems(MarkerOf(s, exchangeId, history), SuffixOf(s, exchangeId, history));
  }

  lemma MarkerRewrites(s: State, e: string, history: seq<HistoryItem>)
    ensures |MarkerOf(s, e, history)| <= 1 && forall t :: t in MarkerOf(s, e, history) ==> t.content.Rewrite?
  {
    hide CommonPrefixLen, NormalizeAll;
  }

  lemma MarkersHaveNoItems(marker: seq<Turn>, turns: seq<Turn>)
    requires |marker| <= 1 && forall t :: t in marker ==> t.content.Rewrite?
    ensures ItemsOf(marker + turns) == ItemsOf(turns)
  {
    if marker == [] {
      assert marker + turns == turns;
    } else {
      assert (marker + turns)[1..] == turns;
      assert [] + ItemsOf(turns) == ItemsOf(turns);
    }
  }

  lemma PrefixIff(left: seq<HistoryItem>, right: seq<HistoryItem>)
    ensures CommonPrefixLen(left, right) == |left| <==> left <= right
  {
    var n := CommonPrefixLen(left, right);
    if n == |left| {
      assert left[..n] == left;
    }
  }

  /** Observing emits a marker iff the old history is not a prefix of the new one, and the batch takes the
      old history to the new one. */
  lemma ObserveReplays(s: State, exchangeId: string, history: seq<HistoryItem>)
    ensures var (s', batch) := Observe(s, exchangeId, history);
            && s'.observed == NormalizeAll(history) == Replay(s.observed, batch)
            && (batch != [] && batch[0].content.Rewrite? <==> !(s.observed <= NormalizeAll(history)))
  {
    hide CommonPrefixLen, NormalizeAll, ItemsOf, SuffixOf;
    var normalized := NormalizeAll(history);
    var n := CommonPrefixLen(s.observed, normalized);
    PrefixIff(s.observed, normalized);
    ObserveParts(s, exchangeId, history);
    ObservedItems(s, exchangeId, history);
    assert normalized == normalized[..n] + normalized[n..];
    assert n == |s.observed| ==> s.observed[..n] == s.observed;
    hide TurnsFor;
    assert MarkerOf(s, exchangeId, history) == [] ==> Observe(s, exchangeId, history).1 == SuffixOf(s, exchangeId, history);
  }

  lemma StepReplays(s: State, c: Call)
    ensures Step(s, c).0.observed == Replay(s.observed, Step(s, c).1)
  {
    match c
    case ObserveRequest(exchangeId, history) =>
      ObserveReplays(s, exchangeId, history);
    case AppendItem(exchangeId, item) =>
      var batch := Step(s, c).1;
      assert ItemsOf(batch[1..]) == [] && [Normalize(item)] + [] == [Normalize(item)];
    case AsideTurn(exchangeId, title) =>
      var batch := Step(s, c).1;
      assert ItemsOf(batch[1..]) == [] && ItemsOf(batch) == [];
      assert s.observed + [] == s.observed;
  }

  /** After any interleaving of calls, replaying the emitted batches gives the observed history. */
  lemma {:induction false} ReplayReconstructs(s: State, calls: seq<Call>)
    ensures ReplayAll(s.observed, Run(s, calls).1) == Run(s, calls).0.observed
    decreases |calls|
  {
    if calls != [] {
      StepReplays(s, calls[0]);
      ReplayReconstructs(Step(s, calls[0]).0, calls[1..]);
      var batches := Run(s, calls).1;
      assert batches[1..] == Run(Step(s, calls[0]).0, calls[1..]).1;
    }
  }

  /** Observing the same history again emits nothing and changes nothing. */
  lemma ReobserveIsSilent(s: State, exchangeId: string, history: seq<HistoryItem>)
    requires s.observed == NormalizeAll(history)
    ensures Observe(s, exchangeId, history) == (s, [])
  {
    var n := CommonPrefixLen(s.observed, NormalizeAll(history));
    PrefixIff(s.observed, NormalizeAll(history));
    assert n == |s.observed| == |history|;
    assert history[n..] == [];
    assert TurnsFor(s.nextTurnOrdinal + 0, exchangeId, history[n..]) == [];
    var result := Observe(s, exchangeId, history);
    assert result.1 == [] && result.0.nextTurnOrdinal == s.nextTurnOrdinal;
  }

  /** No batch that replays to the new history has fewer history items. */
  lemma ObserveIsMinimal(s: State, exchangeId: string, history: seq<HistoryItem>, batch: seq<Turn>)
    requires Replay(s.observed, batch) == NormalizeAll(history)
    ensures |ItemsOf(Observe(s, exchangeId, history).1)| <= |ItemsOf(batch)|
  {
    ObservedItems(s, exchangeId, history);
    hide Observe, ItemsOf, NormalizeAll;
    var normalized, items := NormalizeAll(history), ItemsOf(batch);
    var n, kept := CommonPrefixLen(s.observed, normalized), |normalized| - |items|;
    if 0 <= kept <= |s.observed| {
      assert normalized[..kept] == s.observed[..kept];
      SharedIsShorter(s.observed, normalized, kept);
    }
  }

  lemma SharedIsShorter(left: seq<HistoryItem>, right: seq<HistoryItem>, n: nat)
    requires n <= |left| && n <= |right| && left[..n] == right[..n]
    ensures n <= CommonPrefixLen(left, right)
  {
    hide CommonPrefixLen;
    forall i | 0 <= i < n ensures left[i] == right[i] {
      assert left[..n][i] == right[..n][i];
    }
  }

  // ---- What counts as the same item ----

  /** Answers are the same when their text and tool calls are, whatever the model and the finish reason;
      other items when they are equal. */
  predicate SameMeaning(a: HistoryItem, b: HistoryItem) {
    match (a, b)
    case (AssistantTurn(text, calls, _, _), AssistantTurn(otherText, otherCalls, _, _)) => text == otherText && calls == otherCalls
    case (_, _) => a == b
  }

  ghost predicate SameUpTo(a: seq<HistoryItem>, b: seq<HistoryItem>, n: nat) {
    n <= |a| && n <= |b| && forall i :: 0 <= i < n ==> SameMeaning(a[i], b[i])
  }

  lemma NormalizeIff(a: HistoryItem, b: HistoryItem)
    ensures Normalize(a) == Normalize(b) <==> SameMeaning(a, b)
  {
  }

  /** The history as the calls gave it, item by item. */
  function Known(known: seq<HistoryItem>, calls: seq<Call>): seq<HistoryItem>
    decreases |calls|
  {
    if calls == [] then known else Known(KnownNext(known, calls[0]), calls[1..])
  }

  function KnownNext(known: seq<HistoryItem>, c: Call): seq<HistoryItem> {
    match c
    case ObserveRequest(_, history) => history
    case AppendItem(_, item) => known + [item]
    case AsideTurn(_, _) => known
  }

  lemma {:induction false} RunKnows(s: State, known: seq<HistoryItem>, calls: seq<Call>)
    requires s.observed == NormalizeAll(known)
    ensures Run(s, calls).0.observed == NormalizeAll(Known(known, calls))
    decreases |calls|
  {
    if calls != [] {
      var s' := Step(s, calls[0]).0;
      var known' := KnownNext(known, calls[0]);
      if calls[0].AppendItem? {
        assert NormalizeAll(known + [calls[0].item]) == NormalizeAll(known) + [Normalize(calls[0].item)];
      }
      assert s'.observed == NormalizeAll(known');
      hide Normalize, NormalizeAll, Observe;
      RunKnows(s', known', calls[1..]);
    }
  }

  /** The turns carry these items, unchanged and in order. */
  ghost predicate Shows(turns: seq<Turn>, items: seq<HistoryItem>) {
    |turns| == |items| && forall i :: 0 <= i < |items| ==> turns[i].content == History(items[i])
  }

  /** A rewrite marker if there is to be one, and then turns that carry the items. */
  ghost predicate Emits(batch: seq<Turn>, rewrites: bool, items: seq<HistoryItem>) {
    if rewrites then batch != [] && batch[0].content.Rewrite? && Shows(batch[1..], items) else Shows(batch, items)
  }

  /** After any run, an observation emits the items from the first one that differs in meaning from what was
      known, unchanged, and before them a rewrite marker iff that leaves known items behind. */
  lemma ObserveEmits(calls: seq<Call>, e: string, history: seq<HistoryItem>) returns (n: nat)
    ensures var s, known := Run(FRESH, calls).0, Known([], calls);
            && SameUpTo(known, history, n) && (n == |known| || n == |history| || !SameMeaning(known[n], history[n]))
            && Emits(Observe(s, e, history).1, n < |known|, history[n..])
  {
    var s, known := Run(FRESH, calls).0, Known([], calls);
    hide *;
    NothingNormalized();
    RunKnows(FRESH, [], calls);
    n := CommonPrefixLen(s.observed, NormalizeAll(history));
    SharedMeans(known, history);
    EmitsFrom(s, e, history);
    LengthKept(known);
  }

  lemma NothingNormalized()
    ensures FRESH.observed == NormalizeAll([])
  {
  }

  lemma LengthKept(items: seq<HistoryItem>)
    ensures |NormalizeAll(items)| == |items|
  {
  }

  /** The common prefix is that of the meanings. */
  lemma SharedMeans(a: seq<HistoryItem>, b: seq<HistoryItem>)
    ensures var n := CommonPrefixLen(NormalizeAll(a), NormalizeAll(b));
            n <= |a| && n <= |b| && SameUpTo(a, b, n) && (n == |a| || n == |b| || !SameMeaning(a[n], b[n]))
  {
    var n := CommonPrefixLen(NormalizeAll(a), NormalizeAll(b));
    hide Normalize, CommonPrefixLen, SameMeaning;
    forall i | 0 <= i < n ensures SameMeaning(a[i], b[i]) {
      assert NormalizeAll(a)[..n][i] == NormalizeAll(b)[..n][i];
      NormalizeIff(a[i], b[i]);
    }
    if n < |a| && n < |b| {
      NormalizeIff(a[n], b[n]);
    }
  }

  lemma EmitsFrom(s: State, e: string, history: seq<HistoryItem>)
    ensures var n := CommonPrefixLen(s.observed, NormalizeAll(history));
            n <= |history| && n <= |s.observed| && Emits(Observe(s, e, history).1, n < |s.observed|, history[n..])
  {
    var suffix, marker := SuffixOf(s, e, history), MarkerOf(s, e, history);
    assert Shows(suffix, history[CommonPrefixLen(s.observed, NormalizeAll(history))..]);
    assert Observe(s, e, history).1 == marker + suffix;
    hide CommonPrefixLen, NormalizeAll, SuffixOf, Observe, Shows;
    assert marker == [] ==> marker + suffix == suffix;
    assert marker != [] ==> (marker + suffix)[1..] == suffix;
  }

  /** After any run, observing a history emits nothing iff it has as many items as were known and each means
      the same. */
  lemma SilentIff(calls: seq<Call>, e: string, history: seq<HistoryItem>)
    ensures Observe(Run(FRESH, calls).0, e, history).1 == []
            <==> |history| == |Known([], calls)| && SameUpTo(Known([], calls), history, |history|)
  {
    hide Observe, Run, Known, SameMeaning;
    var n := ObserveEmits(calls, e, history);
  }

  /** An answer that was appended and comes back in the next request is not emitted again iff its text and
      tool calls are the same; any other item, iff it is equal. */
  lemma ReturnedItem(calls: seq<Call>, e: string, h: seq<HistoryItem>, item: HistoryItem, returned: HistoryItem)
    ensures var before := calls + [ObserveRequest(e, h), AppendItem(e, item)];
            Observe(Run(FRESH, before).0, e, h + [returned]).1 == [] <==> SameMeaning(item, returned)
  {
    var before := calls + [ObserveRequest(e, h), AppendItem(e, item)];
    KnownLast([], calls, e, h, item);
    SilentIff(before, e, h + [returned]);
    hide Observe, Run, Known;
    forall i | 0 <= i < |h| ensures SameMeaning((h + [item])[i], (h + [returned])[i]) {
      assert (h + [item])[i] == h[i] == (h + [returned])[i];
    }
    assert (h + [item])[|h|] == item && (h + [returned])[|h|] == returned;
  }

  lemma {:induction false} KnownLast(known: seq<HistoryItem>, calls: seq<Call>, e: string, h: seq<HistoryItem>, item: HistoryItem)
    ensures Known(known, calls + [ObserveRequest(e, h), AppendItem(e, item)]) == h + [item]
    decreases |calls|
  {
    var last := [ObserveRequest(e, h), AppendItem(e, item)];
    if calls == [] {
      assert calls + last == last && last[1..] == [AppendItem(e, item)] && [AppendItem(e, item)][1..] == [];
      assert Known(h + [item], []) == h + [item];
      assert Known(h, [AppendItem(e, item)]) == Known(h + [item], []);
    } else {
      assert (calls + last)[1..] == calls[1..] + last && (calls + last)[0] == calls[0];
      KnownLast(KnownNext(known, calls[0]), calls[1..], e, h, item);
    }
  }

  /** Every turn of a call carries the exchange of that call; and what is appended or put aside is emitted
      unchanged. */
  lemma TurnsOfCall(s: State, c: Call)
    ensures forall t :: t in Step(s, c).1 ==> t.exchangeId == c.exchangeId
    ensures c.AppendItem? ==> |Step(s, c).1| == 1 && Step(s, c).1[0].content == History(c.item)
    ensures c.AsideTurn? ==> |Step(s, c).1| == 1 && Step(s, c).1[0].content == Aside(c.title) && Step(s, c).0.observed == s.observed
  {
    hide CommonPrefixLen, NormalizeAll;
  }

  // ---- Ordinals ----

  function Flatten(batches: seq<seq<Turn>>): seq<Turn> {
    if batches == [] then [] else batches[0] + Flatten(batches[1..])
  }

  /** The turns carry the ordinals right after `from`, one after the other. */
  ghost predicate Consecutive(from: nat, turns: seq<Turn>) {
    forall i :: 0 <= i < |turns| ==> turns[i].ordinal == from + 1 + i
  }

  /** The ordinals of a whole run are consecutive, whatever the calls. */
  lemma {:induction false} OrdinalsAreConsecutive(s: State, calls: seq<Call>)
    ensures Consecutive(s.nextTurnOrdinal, Flatten(Run(s, calls).1))
    ensures Run(s, calls).0.nextTurnOrdinal == s.nextTurnOrdinal + |Flatten(Run(s, calls).1)|
    decreases |calls|
  {
    if calls != [] {
      var (s', batch) := Step(s, calls[0]);
      OrdinalsAreConsecutive(s', calls[1..]);
      var batches := Run(s, calls).1;
      assert batches == [batch] + Run(s', calls[1..]).1;
      assert batches[1..] == Run(s', calls[1..]).1;
      assert Consecutive(s.nextTurnOrdinal, batch);
      assert s'.nextTurnOrdinal == s.nextTurnOrdinal + |batch|;
      hide Step;
      ConsecutiveConcat(s.nextTurnOrdinal, batch, Flatten(batches[1..]));
    }
  }

  lemma ConsecutiveConcat(from: nat, a: seq<Turn>, b: seq<Turn>)
    requires Consecutive(from, a) && Consecutive(from + |a|, b)
    ensures Consecutive(from, a + b)
  {
    forall i | 0 <= i < |a + b| ensures (a + b)[i].ordinal == from + 1 + i {
      if i >= |a| {
        assert (a + b)[i] == b[i - |a|];
      }
    }
  }

  // ---- The batches are needed ----

  /** The flat log of turns does not determine the history: after `a`, `b` and `c` were observed, the same
      turns come from dropping `c` and appending the answer `x`, and from replacing `b` and `c` by `x`. */
  lemma FlatLogIsAmbiguous(e: string, a: HistoryItem, b: HistoryItem, c: HistoryItem, x: HistoryItem)
    requires a == UserInput("a", []) && b == UserInput("b", []) && c == UserInput("c", []) && x.AssistantTurn?
    ensures Run(FRESH, [ObserveRequest(e, [a, b, c])]).0 == State(3, [a, b, c])
    ensures var dropped := Run(State(3, [a, b, c]), [ObserveRequest(e, [a, b]), AppendItem(e, x)]);
            var replaced := Run(State(3, [a, b, c]), [ObserveRequest(e, [a, x])]);
            && Flatten(dropped.1) == Flatten(replaced.1)
            && dropped.0.observed == [a, b, Normalize(x)] && replaced.0.observed == [a, Normalize(x)]
  {
    assert [ObserveRequest(e, [a, b, c])][1..] == [] && NormalizeAll([a, b, c]) == [a, b, c];
    Dropped(e, a, b, c, x);
    Replaced(e, a, b, c, x);
    hide Observe, Flatten;
  }

  lemma Dropped(e: string, a: HistoryItem, b: HistoryItem, c: HistoryItem, x: HistoryItem)
    requires a == UserInput("a", []) && b == UserInput("b", []) && c == UserInput("c", []) && x.AssistantTurn?
    ensures var r := Run(State(3, [a, b, c]), [ObserveRequest(e, [a, b]), AppendItem(e, x)]);
            Flatten(r.1) == [Turn(4, e, Rewrite(3, 2)), Turn(5, e, History(x))] && r.0.observed == [a, b, Normalize(x)]
  {
    var s, s1, s2 := State(3, [a, b, c]), State(4, [a, b]), State(5, [a, b, Normalize(x)]);
    var marker, item := Turn(4, e, Rewrite(3, 2)), Turn(5, e, History(x));
    var first, second := ObserveRequest(e, [a, b]), AppendItem(e, x);
    PrefixLenOf([a, b], [c], []);
    assert NormalizeAll([a, b]) == [a, b] && [a, b] + [c] == [a, b, c] && [a, b] + [] == [a, b] && [a, b][2..] == [];
    assert Step(s, first) == (s1, [marker]) by { hide Normalize; assert Observe(s, e, [a, b]).1 == [marker]; }
    assert [a, b] + [Normalize(x)] == [a, b, Normalize(x)];
    assert Step(s1, second) == (s2, [item]);
    hide Step, Observe, NormalizeAll;
    assert [first, second][1..] == [second] && [second][1..] == [];
    var none: seq<seq<Turn>> := [];
    assert Run(s2, []) == (s2, none) && [[item]] + none == [[item]];
    assert Run(s1, [second]) == (s2, [[item]]);
    assert Run(s, [first, second]) == (s2, [[marker]] + [[item]]);
    assert Flatten([[item]]) == [item] + [] && ([[marker]] + [[item]])[1..] == [[item]];
    assert [marker] + [item] == [marker, item];
  }

  lemma Replaced(e: string, a: HistoryItem, b: HistoryItem, c: HistoryItem, x: HistoryItem)
    requires a == UserInput("a", []) && b == UserInput("b", []) && c == UserInput("c", []) && x.AssistantTurn?
    ensures var r := Run(State(3, [a, b, c]), [ObserveRequest(e, [a, x])]);
            Flatten(r.1) == [Turn(4, e, Rewrite(3, 2)), Turn(5, e, History(x))] && r.0.observed == [a, Normalize(x)]
  {
    var s, y := State(3, [a, b, c]), Normalize(x);
    var marker, item := Turn(4, e, Rewrite(3, 2)), Turn(5, e, History(x));
    PrefixLenOf([a], [b, c], [y]);
    assert NormalizeAll([a, x]) == [a, y] && [a] + [b, c] == [a, b, c] && [a] + [y] == [a, y];
    assert [a, x][1..] == [x] && TurnsFor(4, e, [x]) == [item];
    assert Observe(s, e, [a, x]).1 == [marker, item];
    assert [ObserveRequest(e, [a, x])][1..] == [];
    hide Observe;
    assert Flatten([[marker, item]]) == [marker, item] + [] == [marker, item];
  }

  // ---- What the flat log needs besides ----

  function Take(view: seq<HistoryItem>, n: int): seq<HistoryItem> {
    if 0 <= n <= |view| then view[..n] else view
  }

  /** Reading the flat log from its end, when the history is `n` items long: each item shortens what came
      before it by one, and a marker says how long the history before it was. */
  function Rebuild(start: seq<HistoryItem>, log: seq<Turn>, n: int): seq<HistoryItem>
    decreases |log|
  {
    if log == [] then start
    else
      var init, t := log[..|log| - 1], log[|log| - 1];
      match t.content
      case History(item) => Rebuild(start, init, n - 1) + [Normalize(item)]
      case Rewrite(previousLen, _) => Take(Rebuild(start, init, previousLen), n)
      case Aside(_) => Rebuild(start, init, n)
  }

  lemma RebuildLast(start: seq<HistoryItem>, log: seq<Turn>, t: Turn, n: int)
    ensures Rebuild(start, log + [t], n)
            == match t.content
               case History(item) => Rebuild(start, log, n - 1) + [Normalize(item)]
               case Rewrite(previousLen, _) => Take(Rebuild(start, log, previousLen), n)
               case Aside(_) => Rebuild(start, log, n)
  {
    assert (log + [t])[..|log|] == log;
  }

  lemma {:induction false} RebuildItems(start: seq<HistoryItem>, log: seq<Turn>, batch: seq<Turn>, n: int)
    requires forall t :: t in batch ==> t.content.History?
    ensures Rebuild(start, log + batch, n) == Rebuild(start, log, n - |batch|) + ItemsOf(batch)
    decreases |batch|
  {
    hide *;
    if batch == [] {
      ItemsOfNone();
      assert log + batch == log && Rebuild(start, log, n) + [] == Rebuild(start, log, n);
    } else {
      var t, rest := batch[0], batch[1..];
      assert batch == [t] + rest && t in batch && forall u :: u in rest ==> u in batch;
      ItemsOfCons(t, rest);
      ConcatAssociative(log, [t], rest);
      RebuildItems(start, log + [t], rest, n);
      RebuildLast(start, log, t, n - |rest|);
      ConcatAssociative(Rebuild(start, log, n - |batch|), [Normalize(t.content.item)], ItemsOf(rest));
    }
  }

  lemma ItemsOfNone()
    ensures ItemsOf([]) == []
  {
  }

  lemma ItemsOfCons(t: Turn, rest: seq<Turn>)
    requires t.content.History?
    ensures ItemsOf([t] + rest) == [Normalize(t.content.item)] + ItemsOf(rest)
  {
    assert ([t] + rest)[1..] == rest;
  }

  lemma ObserveParts(s: State, e: string, history: seq<HistoryItem>)
    ensures Observe(s, e, history).1 == MarkerOf(s, e, history) + SuffixOf(s, e, history)
    ensures var n, suffix := CommonPrefixLen(s.observed, NormalizeAll(history)), SuffixOf(s, e, history);
            && |suffix| == |history| - n && (forall t :: t in suffix ==> t.content.History?)
            && ItemsOf(suffix) == NormalizeAll(history)[n..]
  {
    var n := CommonPrefixLen(s.observed, NormalizeAll(history));
    var ordinal := s.nextTurnOrdinal + |MarkerOf(s, e, history)|;
    assert SuffixOf(s, e, history) == TurnsFor(ordinal, e, history[n..]);
    assert Observe(s, e, history).1 == MarkerOf(s, e, history) + SuffixOf(s, e, history);
    assert n <= |history|;
    hide *;
    SuffixItems(ordinal, e, history, n);
  }

  lemma SuffixItems(ordinal: nat, e: string, history: seq<HistoryItem>, n: nat)
    requires n <= |history|
    ensures var suffix := TurnsFor(ordinal, e, history[n..]);
            && |suffix| == |history| - n && (forall t :: t in suffix ==> t.content.History?)
            && ItemsOf(suffix) == NormalizeAll(history)[n..]
  {
    ItemsOfTurns(ordinal, e, history[n..]);
    assert NormalizeAll(history[n..]) == NormalizeAll(history)[n..];
    hide ItemsOf, Normalize;
  }

  lemma ObserveRebuilds(start: seq<HistoryItem>, log: seq<Turn>, s: State, e: string, history: seq<HistoryItem>)
    requires Rebuild(start, log, |s.observed|) == s.observed
    ensures Rebuild(start, log + Observe(s, e, history).1, |history|) == NormalizeAll(history)
  {
    hide Rebuild, Observe, SuffixOf, ItemsOf, TurnsFor, CommonPrefixLen, NormalizeAll;
    var normalized, marker, suffix := NormalizeAll(history), MarkerOf(s, e, history), SuffixOf(s, e, history);
    var n := CommonPrefixLen(s.observed, normalized);
    ObserveParts(s, e, history);
    ConcatAssociative(log, marker, suffix);
    RebuildItems(start, log + marker, suffix, |history|);
    assert normalized == normalized[..n] + normalized[n..];
    if n < |s.observed| {
      RebuildLast(start, log, marker[0], n);
    } else {
      assert log + marker == log && s.observed[..n] == s.observed;
    }
  }

  lemma StepRebuilds(start: seq<HistoryItem>, log: seq<Turn>, s: State, c: Call)
    requires Rebuild(start, log, |s.observed|) == s.observed
    ensures var (s', batch) := Step(s, c);
            Rebuild(start, log + batch, |s'.observed|) == s'.observed
  {
    match c
    case ObserveRequest(e, history) => ObserveRebuilds(start, log, s, e, history);
    case AppendItem(e, item) => RebuildLast(start, log, Step(s, c).1[0], |s.observed| + 1);
    case AsideTurn(e, title) => RebuildLast(start, log, Step(s, c).1[0], |s.observed|);
  }

  lemma {:induction false} RunRebuilds(start: seq<HistoryItem>, log: seq<Turn>, s: State, calls: seq<Call>)
    requires Rebuild(start, log, |s.observed|) == s.observed
    ensures var (s', batches) := Run(s, calls);
            Rebuild(start, log + Flatten(batches), |s'.observed|) == s'.observed
    decreases |calls|
  {
    if calls == [] {
      assert log + [] == log;
    } else {
      var (s', batch) := Step(s, calls[0]);
      StepRebuilds(start, log, s, calls[0]);
      hide Step, Rebuild;
      RunRebuilds(start, log + batch, s', calls[1..]);
      var rest := Run(s', calls[1..]).1;
      assert Run(s, calls).1 == [batch] + rest && ([batch] + rest)[1..] == rest;
      ConcatAssociative(log, batch, Flatten(rest));
    }
  }

  /** The flat log determines the history together with its length: two runs from one state that emit the
      same turns end with the same history iff they end with equally long ones. */
  lemma FlatLogAndLengthDetermine(s: State, calls: seq<Call>, others: seq<Call>)
    requires Flatten(Run(s, calls).1) == Flatten(Run(s, others).1)
    ensures Run(s, calls).0.observed == Rebuild(s.observed, Flatten(Run(s, calls).1), |Run(s, calls).0.observed|)
    ensures Run(s, calls).0.observed == Run(s, others).0.observed
            <==> |Run(s, calls).0.observed| == |Run(s, others).0.observed|
  {
    var none: seq<Turn> := [];
    assert Rebuild(s.observed, none, |s.observed|) == s.observed;
    hide Rebuild, Run, Flatten;
    RunRebuilds(s.observed, none, s, calls);
    RunRebuilds(s.observed, none, s, others);
    assert none + Flatten(Run(s, calls).1) == Flatten(Run(s, calls).1);
  }

  lemma {:induction false} PrefixLenOf(p: seq<HistoryItem>, left: seq<HistoryItem>, right: seq<HistoryItem>)
    requires left == [] || right == [] || left[0] != right[0]
    ensures CommonPrefixLen(p + left, p + right) == |p|
    decreases |p|
  {
    if p == [] {
      assert p + left == left && p + right == right;
    } else {
      assert (p + left)[1..] == p[1..] + left && (p + right)[1..] == p[1..] + right;
      PrefixLenOf(p[1..], left, right);
    }
  }
}

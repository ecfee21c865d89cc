/** The tracker of connected sessions and the contexts they created, and the order in which a connection
    uses it. */
module SessionTracker {
  import opened Basics

  datatype Session = Session(clientTag: string, contextsCreated: seq<nat>)

  /** The value of a tracker: the connected sessions, and the session of each live context. */
  datatype Tracker = Tracker(sessions: map<nat, Session>, owner: map<nat, nat>)

  const EMPTY: Tracker := Tracker(map[], map[])

  // ---- What the methods compute ----

  function Register(t: Tracker, sid: nat, tag: string): Tracker {
    t.(sessions := t.sessions[sid := Session(tag, [])])
  }

  function AddContext(t: Tracker, sid: nat, ctx: nat): Tracker {
    var t1 := t.(owner := t.owner[ctx := sid]);
    if sid !in t.sessions || ctx in t.sessions[sid].contextsCreated then t1
    else
      var s := t.sessions[sid];
      t1.(sessions := t.sessions[sid := s.(contextsCreated := s.contextsCreated + [ctx])])
  }

  function Unregister(t: Tracker, sid: nat): (Tracker, seq<nat>) {
    if sid !in t.sessions then (t, [])
    else
      var contexts := t.sessions[sid].contextsCreated;
      (Tracker(t.sessions - {sid}, t.owner - (set c | c in contexts)), contexts)
  }

  // ---- The code ----

  class SessionTracker {
    var sessions: map<nat, Session>
    var contextToSession: map<nat, nat>

    ghost function Value(): Tracker
      reads this
    {
      Tracker(sessions, contextToSession)
    }

    constructor ()
      ensures Value() == EMPTY
    {
      sessions, contextToSession := map[], map[];
    }

    method RegisterSession(sid: nat, clientTag: string)
      modifies this
      ensures Value() == Register(old(Value()), sid, clientTag)
    {
      sessions := sessions[sid := Session(clientTag, [])];
    }

    method AssociateContext(sid: nat, ctx: nat)
      modifies this
      ensures Value() == AddContext(old(Value()), sid, ctx)
    {
      contextToSession := contextToSession[ctx := sid];
      if sid in sessions {
        var session := sessions[sid];
        if ctx !in session.contextsCreated {
          sessions := sessions[sid := session.(contextsCreated := session.contextsCreated + [ctx])];
        }
      }
    }

    method UnregisterSession(sid: nat) returns (orphaned: seq<nat>)
      modifies this
      ensures (Value(), orphaned) == Unregister(old(Value()), sid)
    {
      if sid !in sessions {
        return [];
      }
      orphaned := sessions[sid].contextsCreated;
      sessions := sessions - {sid};
      for i := 0 to |orphaned|
        invariant contextToSession == old(contextToSession) - (set c | c in orphaned[..i])
        invariant sessions == old(sessions) - {sid}
      {
        assert orphaned[..i + 1] == orphaned[..i] + [orphaned[i]];
        contextToSession := contextToSession - {orphaned[i]};
      }
      assert orphaned[..|orphaned|] == orphaned;
    }

    method SessionForContext(ctx: nat) returns (session: Option<Session>)
      ensures session == if ctx in contextToSession && contextToSession[ctx] in sessions
                         then Some(sessions[contextToSession[ctx]]) else None
    {
      if ctx !in contextToSession || contextToSession[ctx] !in sessions {
        return None;
      }
      session := Some(sessions[contextToSession[ctx]]);
    }
  }

  // ---- The two maps as inverses ----

  ghost predicate NoDup(s: seq<nat>) {
    forall i, j :: 0 <= i < j < |s| ==> s[i] != s[j]
  }

  ghost predicate Lists(t: Tracker, sid: nat, ctx: nat) {
    sid in t.sessions && ctx in t.sessions[sid].contextsCreated
  }

  ghost predicate Owns(t: Tracker, sid: nat, ctx: nat) {
    ctx in t.owner && t.owner[ctx] == sid
  }

  /** A context points to a session exactly when the session lists it, once. */
  ghost predicate Inverse(t: Tracker) {
    && (forall sid, ctx :: Lists(t, sid, ctx) <==> Owns(t, sid, ctx))
    && (forall sid :: sid in t.sessions ==> NoDup(t.sessions[sid].contextsCreated))
  }

  /** Registering keeps the maps inverse iff the session does not forget contexts by it. */
  lemma RegisterIff(t: Tracker, sid: nat, tag: string)
    requires Inverse(t)
    ensures Inverse(Register(t, sid, tag)) <==> sid !in t.sessions || t.sessions[sid].contextsCreated == []
  {
    var t' := Register(t, sid, tag);
    if sid in t.sessions && t.sessions[sid].contextsCreated != [] {
      var ctx := t.sessions[sid].contextsCreated[0];
      assert Lists(t, sid, ctx);
      assert Owns(t', sid, ctx) && !Lists(t', sid, ctx);
    } else {
      forall s, c ensures Lists(t', s, c) <==> Owns(t', s, c) {
        assert Lists(t, s, c) <==> Owns(t, s, c);
      }
    }
  }

  /** Adding a context keeps the maps inverse iff the session is registered and the context belongs to
      no other one. */
  lemma AddContextIff(t: Tracker, sid: nat, ctx: nat)
    requires Inverse(t)
    ensures Inverse(AddContext(t, sid, ctx)) <==> sid in t.sessions && (ctx !in t.owner || t.owner[ctx] == sid)
  {
    var t' := AddContext(t, sid, ctx);
    assert Owns(t', sid, ctx);
    if sid !in t.sessions {
      assert !Lists(t', sid, ctx);
    } else if ctx in t.owner && t.owner[ctx] != sid {
      var other := t.owner[ctx];
      assert Owns(t, other, ctx);
      assert Lists(t', other, ctx) && !Owns(t', other, ctx);
    } else {
      forall s, c ensures Lists(t', s, c) <==> Owns(t', s, c) {
        assert Lists(t, s, c) <==> Owns(t, s, c);
      }
      assert Lists(t, sid, ctx) <==> Owns(t, sid, ctx);
    }
  }

  /** Unregistering keeps the maps inverse, returns the contexts of that session, and takes away the
      session, those contexts and nothing else. */
  lemma UnregisterExact(t: Tracker, sid: nat)
    requires Inverse(t)
    ensures var (t', orphaned) := Unregister(t, sid);
            && Inverse(t')
            && (forall c :: c in orphaned <==> Owns(t, sid, c))
            && t'.sessions == t.sessions - {sid}
            && (forall s, c :: Owns(t', s, c) <==> Owns(t, s, c) && s != sid)
  {
    var (t', orphaned) := Unregister(t, sid);
    forall c ensures c in orphaned <==> Owns(t, sid, c) {
      assert Lists(t, sid, c) <==> Owns(t, sid, c);
    }
    forall s, c
      ensures Owns(t', s, c) <==> Owns(t, s, c) && s != sid
      ensures Lists(t', s, c) <==> Owns(t', s, c)
    {
      assert Lists(t, s, c) <==> Owns(t, s, c);
      assert c in orphaned <==> Owns(t, sid, c);
    }
  }

  // ---- Connections ----

  /** What connections do. Each has a fresh session id; `Create` stands for creating or forking a context,
      which gets a fresh id. A connection ends cleanly at the end of its input or on a timeout, and it
      aborts when an error is passed up, which skips the unregistering. */
  datatype Event =
    | Connect
    | Hello(sid: nat, tag: string)
    | Create(sid: nat)
    | Close(sid: nat)
    | Abort(sid: nat)

  /** `open` says of each open connection whether it has registered. The histories record who created
      each context and which sessions ended cleanly. */
  datatype Server = Server(
    tracker: Tracker, open: map<nat, bool>, nextSession: nat, nextContext: nat,
    createdBy: map<nat, nat>, closed: set<nat>)

  const START: Server := Server(EMPTY, map[], 1, 1, map[], {})

  function RegisterOnce(s: Server, sid: nat, tag: string): Server {
    if sid in s.open && s.open[sid] then s
    else s.(tracker := Register(s.tracker, sid, tag), open := s.open[sid := true])
  }

  /** Events of connections that are not open do not happen. */
  function Step(s: Server, e: Event): Server {
    match e
    case Connect => s.(open := s.open[s.nextSession := false], nextSession := s.nextSession + 1)
    case Hello(sid, tag) => if sid in s.open then RegisterOnce(s, sid, tag) else s
    case Create(sid) =>
      if sid !in s.open then s
      else
        var s1 := RegisterOnce(s, sid, "");
        s1.(tracker := AddContext(s1.tracker, sid, s.nextContext), nextContext := s.nextContext + 1,
            createdBy := s.createdBy[s.nextContext := sid])
    case Close(sid) =>
      if sid !in s.open then s
      else s.(tracker := Unregister(s.tracker, sid).0, open := s.open - {sid}, closed := s.closed + {sid})
    case Abort(sid) => s.(open := s.open - {sid})
  }

  function Run(s: Server, events: seq<Event>): Server
    decreases |events|
  {
    if events == [] then s else Run(Step(s, events[0]), events[1..])
  }

  ghost predicate Inv(s: Server) {
    && Inverse(s.tracker)
    && (forall sid :: sid in s.open ==> sid < s.nextSession && sid !in s.closed && (s.open[sid] <==> sid in s.tracker.sessions))
    && (forall sid :: sid in s.tracker.sessions ==> sid < s.nextSession)
    && (forall sid :: sid in s.closed ==> sid < s.nextSession)
    && (forall c :: c in s.createdBy ==> c < s.nextContext && s.createdBy[c] < s.nextSession)
    && (forall sid, c :: Owns(s.tracker, sid, c) <==> c in s.createdBy && s.createdBy[c] == sid && sid !in s.closed)
  }

  lemma RegisterOnceKeepsInv(s: Server, sid: nat, tag: string)
    requires Inv(s) && sid in s.open
    ensures Inv(RegisterOnce(s, sid, tag)) && sid in RegisterOnce(s, sid, tag).tracker.sessions
  {
    if !s.open[sid] {
      RegisterIff(s.tracker, sid, tag);
      var s' := RegisterOnce(s, sid, tag);
      forall x, c ensures Owns(s'.tracker, x, c) <==> Owns(s.tracker, x, c) {}
    }
  }

  lemma CreateKeepsInv(s: Server, sid: nat)
    requires Inv(s) && sid in s.open
    ensures Inv(Step(s, Create(sid)))
  {
    var s1, s2, ctx := RegisterOnce(s, sid, ""), Step(s, Create(sid)), s.nextContext;
    RegisterOnceKeepsInv(s, sid, "");
    if ctx in s1.tracker.owner {
      assert Owns(s1.tracker, s1.tracker.owner[ctx], ctx);
    }
    AddContextIff(s1.tracker, sid, ctx);
    forall x, c ensures Owns(s2.tracker, x, c) <==> c in s2.createdBy && s2.createdBy[c] == x && x !in s2.closed {
      assert c != ctx ==> (Owns(s2.tracker, x, c) <==> Owns(s1.tracker, x, c));
    }
  }

  lemma CloseKeepsInv(s: Server, sid: nat)
    requires Inv(s) && sid in s.open
    ensures Inv(Step(s, Close(sid)))
  {
    UnregisterExact(s.tracker, sid);
    var s' := Step(s, Close(sid));
    forall x, c ensures Owns(s'.tracker, x, c) <==> c in s'.createdBy && s'.createdBy[c] == x && x !in s'.closed {
      assert Owns(s'.tracker, x, c) <==> Owns(s.tracker, x, c) && x != sid;
    }
  }

  lemma StepKeepsInv(s: Server, e: Event)
    requires Inv(s)
    ensures Inv(Step(s, e))
  {
    match e
    case Connect =>
    case Hello(sid, tag) => if sid in s.open { RegisterOnceKeepsInv(s, sid, tag); }
    case Create(sid) => if sid in s.open { CreateKeepsInv(s, sid); }
    case Close(sid) => if sid in s.open { CloseKeepsInv(s, sid); }
    case Abort(sid) =>
  }

  lemma {:induction false} RunKeepsInv(s: Server, events: seq<Event>)
    requires Inv(s)
    ensures Inv(Run(s, events))
    decreases |events|
  {
    if events != [] {
      StepKeepsInv(s, events[0]);
      RunKeepsInv(Step(s, events[0]), events[1..]);
    }
  }

  /** Over any interleaving of connections the two maps are inverse, and a context is live iff the
      session that created it has not ended cleanly - so the contexts of an aborted connection stay live. */
  lemma LiveIff(events: seq<Event>)
    ensures var s := Run(START, events);
            && Inverse(s.tracker)
            && (forall c :: c in s.tracker.owner <==> c in s.createdBy && s.createdBy[c] !in s.closed)
  {
    assert Inv(START);
    RunKeepsInv(START, events);
    var s := Run(START, events);
    forall c ensures c in s.tracker.owner <==> c in s.createdBy && s.createdBy[c] !in s.closed {
      if c in s.tracker.owner {
        assert Owns(s.tracker, s.tracker.owner[c], c);
      }
      if c in s.createdBy && s.createdBy[c] !in s.closed {
        assert Owns(s.tracker, s.createdBy[c], c);
      }
    }
  }

  /** Closing a connection hands back exactly the contexts it created and leaves all others alone. */
  lemma CloseReturnsCreated(events: seq<Event>, sid: nat)
    requires sid in Run(START, events).open
    ensures var s := Run(START, events);
            var (t', orphaned) := Unregister(s.tracker, sid);
            && (forall c :: c in orphaned <==> c in s.createdBy && s.createdBy[c] == sid)
            && (forall c :: c in t'.owner <==> c in s.tracker.owner && c !in orphaned)
  {
    assert Inv(START);
    RunKeepsInv(START, events);
    var s := Run(START, events);
    UnregisterExact(s.tracker, sid);
    forall c ensures c in Unregister(s.tracker, sid).1 <==> c in s.createdBy && s.createdBy[c] == sid {
      assert Owns(s.tracker, sid, c) <==> c in s.createdBy && s.createdBy[c] == sid && sid !in s.closed;
    }
  }

  lemma {:induction false} GoneStays(s: Server, sid: nat, later: seq<Event>)
    requires sid !in s.open && sid < s.nextSession
    ensures sid !in Run(s, later).open
    ensures var s' := Run(s, later);
            forall c :: c in s'.createdBy && s'.createdBy[c] == sid ==> c in s.createdBy && s.createdBy[c] == sid
    decreases |later|
  {
    if later != [] {
      GoneStays(Step(s, later[0]), sid, later[1..]);
    }
  }

  /** A connection that has ended, cleanly or not, creates nothing more; when it ends uncleanly its session and
      its contexts stay as they are. */
  lemma EndedIsOver(events: seq<Event>, sid: nat, e: Event, later: seq<Event>)
    requires sid in Run(START, events).open && (e == Abort(sid) || e == Close(sid))
    ensures var s := Run(START, events);
            var s', s'' := Step(s, e), Run(Step(s, e), later);
            && sid !in s''.open && (e.Abort? ==> s'.tracker == s.tracker)
            && forall c :: c in s''.createdBy && s''.createdBy[c] == sid ==> c in s.createdBy
  {
    assert Inv(START);
    RunKeepsInv(START, events);
    GoneStays(Step(Run(START, events), e), sid, later);
  }

  /** A connection is registered under the tag of its first greeting, or without a tag when it created a context
      before; later greetings change nothing. */
  lemma FirstGreetingNames(s: Server, sid: nat, tag: string)
    requires sid in s.open
    ensures if s.open[sid] then Step(s, Hello(sid, tag)) == s
            else
              var t := Step(s, Hello(sid, tag)).tracker;
              sid in t.sessions && t.sessions[sid] == Session(tag, []) && t.owner == s.tracker.owner
    ensures !s.open[sid] ==> var t := Step(s, Create(sid)).tracker; sid in t.sessions && t.sessions[sid] == Session("", [s.nextContext])
  {
  }
}

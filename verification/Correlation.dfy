/** Request/response correlation: the hub's registry and per-connection pending maps, and the
    signal-cli JSON-RPC client, which is the same protocol over one connection. Steps are what each
    goroutine does between two lock operations or channel operations. */
module Correlation {
  import opened Prelude

  type CallId = nat

  type ConnId = nat

  /** A response taken off a connection. */
  datatype Read = Read(conn: ConnId, id: CallId)

  /** How a call ends; `Got(k)` is the k-th response read. */
  datatype Outcome = Offline | TimedOut | Got(k: nat)

  datatype Phase =
    | Attached                  // holds the connection, not yet in its pending map
    | Waiting                   // in the pending map, blocked in select
    | Leaving(outcome: Outcome) // outcome chosen, deferred removal still to run
    | Returned(outcome: Outcome)

  /** `since` counts the responses read when the pending entry was made; `channel` is the call's
      one-element buffer. */
  datatype Call = Call(conn: ConnId, phase: Phase, since: nat, channel: Option<nat>)

  datatype ConnPhase = Serving | Refused | Finished

  /** `held` is a response whose channel the reader has looked up and not yet sent to. */
  datatype Conn = Conn(account: string, phase: ConnPhase, closes: nat, held: Option<(CallId, nat)>)

  datatype State = State(
    workers: map<string, ConnId>,
    conns: map<ConnId, Conn>,
    pending: set<Read>,
    calls: map<CallId, Call>,
    log: seq<Read>)

  const INITIAL: State := State(map[], map[], {}, map[], [])

  datatype Step =
    | Register(conn: ConnId, account: string)
    | Unregister(conn: ConnId)
    | Lookup(id: CallId, account: string)
    | Attach(id: CallId, conn: ConnId)
    | AddPending(id: CallId)
    | WriteFails(id: CallId)
    | ReadResponse(conn: ConnId, id: CallId)
    | Send(conn: ConnId)
    | Receive(id: CallId)
    | Timeout(id: CallId)
    | SeeClosed(id: CallId)
    | Cleanup(id: CallId)

  predicate Blocked(s: State, id: CallId) { id in s.calls && s.calls[id].phase.Waiting? }

  /** Ids of connections and calls are new; the rest is where each goroutine stands. */
  predicate Enabled(s: State, step: Step) {
    match step
    case Register(conn, _) => conn !in s.conns
    case Unregister(conn) => conn in s.conns && s.conns[conn].phase.Serving? && s.conns[conn].held.None?
    case Lookup(id, _) => id !in s.calls
    case Attach(id, conn) => id !in s.calls && conn in s.conns && !s.conns[conn].phase.Refused?
    case AddPending(id) => id in s.calls && s.calls[id].phase.Attached?
    case WriteFails(id) => Blocked(s, id)
    case ReadResponse(conn, _) => conn in s.conns && s.conns[conn].phase.Serving? && s.conns[conn].held.None?
    case Send(conn) => conn in s.conns && s.conns[conn].held.Some?
    case Receive(id) => Blocked(s, id) && s.calls[id].channel.Some?
    case Timeout(id) => Blocked(s, id)
    case SeeClosed(id) => Blocked(s, id) && s.calls[id].conn in s.conns && s.conns[s.calls[id].conn].closes > 0
    case Cleanup(id) => id in s.calls && s.calls[id].phase.Leaving?
  }

  function AtPhase(s: State, id: CallId, phase: Phase): State
    requires id in s.calls
  {
    s.(calls := s.calls[id := s.calls[id].(phase := phase)])
  }

  function Registered(s: State, conn: ConnId, account: string): State {
    if account in s.workers then s.(conns := s.conns[conn := Conn(account, Refused, 0, None)])
    else s.(workers := s.workers[account := conn], conns := s.conns[conn := Conn(account, Serving, 0, None)])
  }

  /** The close happens only if the registry still holds this very connection. */
  function Unregistered(s: State, conn: ConnId): State
    requires conn in s.conns
  {
    var c := s.conns[conn];
    if c.account in s.workers && s.workers[c.account] == conn
    then s.(workers := s.workers - {c.account}, conns := s.conns[conn := c.(phase := Finished, closes := c.closes + 1)])
    else s.(conns := s.conns[conn := c.(phase := Finished)])
  }

  /** A response for an id with no pending entry is dropped. */
  function Looked(s: State, conn: ConnId, id: CallId): State
    requires conn in s.conns
  {
    var k := |s.log|;
    var held := if Read(conn, id) in s.pending then Some((id, k)) else None;
    s.(log := s.log + [Read(conn, id)], conns := s.conns[conn := s.conns[conn].(held := held)])
  }

  /** The buffered channel takes the response if it is empty; otherwise the response is dropped. */
  function Sent(s: State, conn: ConnId): State
    requires conn in s.conns && s.conns[conn].held.Some?
  {
    var (id, k) := s.conns[conn].held.value;
    var calls := if id in s.calls && s.calls[id].channel.None?
      then s.calls[id := s.calls[id].(channel := Some(k))] else s.calls;
    s.(calls := calls, conns := s.conns[conn := s.conns[conn].(held := None)])
  }

  function After(s: State, step: Step): State
    requires Enabled(s, step)
  {
    match step
    case Register(conn, account) => Registered(s, conn, account)
    case Unregister(conn) => Unregistered(s, conn)
    case Lookup(id, account) =>
      if account in s.workers then s.(calls := s.calls[id := Call(s.workers[account], Attached, 0, None)])
      else s.(calls := s.calls[id := Call(0, Returned(Offline), 0, None)])
    case Attach(id, conn) => s.(calls := s.calls[id := Call(conn, Attached, 0, None)])
    case AddPending(id) =>
      var c := s.calls[id];
      s.(calls := s.calls[id := c.(phase := Waiting, since := |s.log|)], pending := s.pending + {Read(c.conn, id)})
    case WriteFails(id) => AtPhase(s, id, Leaving(Offline))
    case ReadResponse(conn, id) => Looked(s, conn, id)
    case Send(conn) => Sent(s, conn)
    case Receive(id) =>
      s.(calls := s.calls[id := s.calls[id].(phase := Leaving(Got(s.calls[id].channel.value)), channel := None)])
    case Timeout(id) => AtPhase(s, id, Leaving(TimedOut))
    case SeeClosed(id) => AtPhase(s, id, Leaving(Offline))
    case Cleanup(id) =>
      var c := s.calls[id];
      s.(calls := s.calls[id := c.(phase := Returned(c.phase.outcome))], pending := s.pending - {Read(c.conn, id)})
  }

  ghost predicate Leads(s: State, steps: seq<Step>, t: State)
    decreases |steps|
  {
    if steps == [] then s == t
    else Enabled(s, steps[0]) && Leads(After(s, steps[0]), steps[1..], t)
  }

  // ---- the invariant -----------------------------------------------------------

  predicate IsServing(s: State, conn: ConnId, account: string) {
    conn in s.conns && s.conns[conn].account == account && s.conns[conn].phase.Serving?
  }

  /** The registry holds exactly the serving connections, and each finished one was closed once. */
  ghost predicate RegistryHolds(s: State) {
    && (forall a :: a in s.workers ==> IsServing(s, s.workers[a], a))
    && (forall conn, a :: IsServing(s, conn, a) ==> a in s.workers && s.workers[a] == conn)
    && (forall conn :: conn in s.conns ==> s.conns[conn].closes == if s.conns[conn].phase.Finished? then 1 else 0)
    && (forall conn :: conn in s.conns && s.conns[conn].held.Some? ==> s.conns[conn].phase.Serving?)
  }

  predicate InFlight(p: Phase) { p.Waiting? || p.Leaving? }

  predicate HasEntry(s: State, r: Read) {
    r.id in s.calls && s.calls[r.id].conn == r.conn && InFlight(s.calls[r.id].phase)
  }

  /** A pending entry exists exactly while its call is between registering and returning. */
  ghost predicate PendingHolds(s: State) {
    && (forall r :: r in s.pending <==> HasEntry(s, r))
    && (forall id :: id in s.calls && !s.calls[id].phase.Returned? ==>
          s.calls[id].conn in s.conns && !s.conns[s.calls[id].conn].phase.Refused?)
  }

  /** `k` is the first response for the call since its entry was made. */
  predicate IsFirst(log: seq<Read>, call: Call, id: CallId, k: nat) {
    && call.since <= k < |log| && log[k] == Read(call.conn, id)
    && forall j :: call.since <= j < k ==> log[j] != Read(call.conn, id)
  }

  predicate Unanswered(log: seq<Read>, call: Call, id: CallId) {
    forall j :: call.since <= j < |log| ==> log[j] != Read(call.conn, id)
  }

  /** The response the call's connection holds for it. */
  function HeldFor(s: State, id: CallId): Option<nat> {
    if id in s.calls && s.calls[id].conn in s.conns && s.conns[s.calls[id].conn].held.Some?
       && s.conns[s.calls[id].conn].held.value.0 == id
    then Some(s.conns[s.calls[id].conn].held.value.1) else None
  }

  ghost predicate Answered(s: State, id: CallId)
    requires id in s.calls
  {
    var c := s.calls[id];
    match c.phase
    case Attached => c.channel.None? && HeldFor(s, id).None?
    case Waiting =>
      c.since <= |s.log|
      && if c.channel.Some? then IsFirst(s.log, c, id, c.channel.value)
         else if HeldFor(s, id).Some? then IsFirst(s.log, c, id, HeldFor(s, id).value)
         else Unanswered(s.log, c, id)
    case Leaving(o) => o.Got? ==> IsFirst(s.log, c, id, o.k)
    case Returned(o) => o.Got? ==> IsFirst(s.log, c, id, o.k)
  }

  /** What a reader holds is for a call that made an entry on that connection. */
  ghost predicate HeldHolds(s: State) {
    forall conn :: conn in s.conns && s.conns[conn].held.Some? ==>
      var (id, k) := s.conns[conn].held.value;
      id in s.calls && s.calls[id].conn == conn && !s.calls[id].phase.Attached?
      && k < |s.log| && s.log[k] == Read(conn, id)
  }

  ghost predicate CallsHold(s: State) {
    forall id :: id in s.calls ==> Answered(s, id)
  }

  ghost predicate Inv(s: State) { RegistryHolds(s) && PendingHolds(s) && HeldHolds(s) && CallsHold(s) }

  // ---- preservation --------------------------------------------------------------

  /** A call is judged by itself, the log, and what its connection holds for it. */
  lemma AnsweredSame(s: State, t: State, id: CallId)
    requires id in s.calls && id in t.calls && t.calls[id] == s.calls[id] && t.log == s.log
    requires HeldFor(t, id) == HeldFor(s, id) || s.calls[id].phase.Leaving? || s.calls[id].phase.Returned?
    requires Answered(s, id)
    ensures Answered(t, id)
  {
  }

  lemma RegisterRegistry(s: State, conn: ConnId, account: string)
    requires RegistryHolds(s) && conn !in s.conns
    ensures RegistryHolds(Registered(s, conn, account))
  {
    var t := Registered(s, conn, account);
    assert forall c, a :: IsServing(t, c, a) <==>
        IsServing(s, c, a) || (c == conn && a == account && account !in s.workers);
  }

  lemma RegisterCalls(s: State, t: State, conn: ConnId)
    requires PendingHolds(s) && HeldHolds(s) && CallsHold(s) && conn !in s.conns
    requires conn in t.conns && t.conns == s.conns[conn := t.conns[conn]] && t.conns[conn].held.None?
    requires t.calls == s.calls && t.pending == s.pending && t.log == s.log
    ensures PendingHolds(t) && HeldHolds(t) && CallsHold(t)
  {
    assert forall r :: HasEntry(t, r) <==> HasEntry(s, r);
    forall id | id in t.calls
      ensures Answered(t, id)
    {
      AnsweredSame(s, t, id);
    }
  }

  lemma RegisterKeeps(s: State, conn: ConnId, account: string)
    requires Inv(s) && conn !in s.conns
    ensures Inv(Registered(s, conn, account))
  {
    RegisterRegistry(s, conn, account);
    RegisterCalls(s, Registered(s, conn, account), conn);
  }

  lemma UnregisterKeeps(s: State, conn: ConnId)
    requires Inv(s) && Enabled(s, Unregister(conn))
    ensures Inv(Unregistered(s, conn))
    ensures Unregistered(s, conn).conns[conn].closes == 1
  {
    var t := Unregistered(s, conn);
    assert IsServing(s, conn, s.conns[conn].account);
    forall id | id in t.calls
      ensures Answered(t, id)
    {
      AnsweredSame(s, t, id);
    }
    assert forall r :: HasEntry(t, r) <==> HasEntry(s, r);
    assert forall c, a :: IsServing(t, c, a) <==> IsServing(s, c, a) && c != conn;
  }

  /** Only one call differs, and it is not in a reader's hands. */
  ghost predicate OneCall(s: State, t: State, id: CallId) {
    && t.workers == s.workers && t.conns == s.conns && t.log == s.log
    && id in t.calls && t.calls == s.calls[id := t.calls[id]]
  }

  lemma OneCallKeeps(s: State, t: State, id: CallId)
    requires Inv(s) && OneCall(s, t, id)
    requires Answered(t, id)
    requires id in s.calls ==> t.calls[id].conn == s.calls[id].conn && (t.calls[id].phase.Attached? ==> s.calls[id].phase.Attached?)
    requires !t.calls[id].phase.Returned? ==> t.calls[id].conn in t.conns && !t.conns[t.calls[id].conn].phase.Refused?
    requires t.pending == if InFlight(t.calls[id].phase) then s.pending + {Read(t.calls[id].conn, id)}
                          else s.pending - {Read(t.calls[id].conn, id)}
    ensures Inv(t)
  {
    assert forall c, a :: IsServing(t, c, a) <==> IsServing(s, c, a);
    forall o | o in t.calls
      ensures Answered(t, o)
    {
      if o != id {
        AnsweredSame(s, t, o);
      }
    }
    forall r
      ensures r in t.pending <==> HasEntry(t, r)
    {
      assert r in s.pending <==> HasEntry(s, r);
    }
  }

  lemma NewCallKeeps(s: State, id: CallId, conn: ConnId)
    requires Inv(s) && id !in s.calls && conn in s.conns && !s.conns[conn].phase.Refused?
    ensures Inv(s.(calls := s.calls[id := Call(conn, Attached, 0, None)]))
  {
    var t := s.(calls := s.calls[id := Call(conn, Attached, 0, None)]);
    assert !HasEntry(s, Read(conn, id));
    OneCallKeeps(s, t, id);
  }

  lemma ReadKeeps(s: State, conn: ConnId, id: CallId)
    requires Inv(s) && Enabled(s, ReadResponse(conn, id))
    ensures Inv(Looked(s, conn, id))
  {
    var t := Looked(s, conn, id);
    assert forall r :: HasEntry(t, r) <==> HasEntry(s, r);
    assert forall c, a :: IsServing(t, c, a) <==> IsServing(s, c, a);
    assert Read(conn, id) in s.pending <==> HasEntry(s, Read(conn, id));
    forall o | o in t.calls
      ensures Answered(t, o)
    {
      ReadAnswers(s, t, conn, id, o);
    }
  }

  lemma ReadAnswers(s: State, t: State, conn: ConnId, id: CallId, o: CallId)
    requires Enabled(s, ReadResponse(conn, id)) && t == Looked(s, conn, id)
    requires Read(conn, id) in s.pending <==> HasEntry(s, Read(conn, id))
    requires o in s.calls && Answered(s, o) && HeldHolds(s)
    ensures Answered(t, o)
  {
    var c := s.calls[o];
    var k := |s.log|;
    assert forall j :: 0 <= j < k ==> t.log[j] == s.log[j];
    if c.conn == conn && o == id {
      assert HeldFor(s, o).None?;
      if c.phase.Waiting? && c.channel.None? {
        assert HeldFor(t, o) == Some(k);
        assert IsFirst(t.log, c, o, k);
      }
    } else {
      assert t.log[k] != Read(c.conn, o);
      assert HeldFor(t, o) == HeldFor(s, o);
    }
  }

  lemma SendKeeps(s: State, conn: ConnId)
    requires Inv(s) && Enabled(s, Send(conn))
    ensures Inv(Sent(s, conn))
  {
    var t := Sent(s, conn);
    assert forall r :: HasEntry(t, r) <==> HasEntry(s, r);
    assert forall c, a :: IsServing(t, c, a) <==> IsServing(s, c, a);
    var (id, k) := s.conns[conn].held.value;
    forall o | o in t.calls
      ensures Answered(t, o)
    {
      if o == id {
        assert HeldFor(s, o) == Some(k);
      } else {
        AnsweredSame(s, t, o);
      }
    }
  }

  lemma CallStepKeeps(s: State, step: Step)
    requires Inv(s) && Enabled(s, step)
    requires step.WriteFails? || step.Receive? || step.Timeout? || step.SeeClosed? || step.Cleanup? || step.AddPending?
    ensures Inv(After(s, step))
  {
    var t := After(s, step);
    var r := Read(s.calls[step.id].conn, step.id);
    assert r in s.pending <==> HasEntry(s, r);
    assert t.pending == if InFlight(t.calls[step.id].phase) then s.pending + {r} else s.pending - {r};
    assert HeldFor(t, step.id) == HeldFor(s, step.id);
    OneCallKeeps(s, t, step.id);
  }

  lemma LookupKeeps(s: State, id: CallId, account: string)
    requires Inv(s) && id !in s.calls
    ensures Inv(After(s, Lookup(id, account)))
  {
    if account in s.workers {
      assert IsServing(s, s.workers[account], account);
      NewCallKeeps(s, id, s.workers[account]);
    } else {
      assert !HasEntry(s, Read(0, id));
      OneCallKeeps(s, After(s, Lookup(id, account)), id);
    }
  }

  lemma StepKeeps(s: State, step: Step)
    requires Inv(s) && Enabled(s, step)
    ensures Inv(After(s, step))
  {
    match step {
      case Register(conn, account) => RegisterKeeps(s, conn, account);
      case Unregister(conn) => UnregisterKeeps(s, conn);
      case Lookup(id, account) => LookupKeeps(s, id, account);
      case Attach(id, conn) => NewCallKeeps(s, id, conn);
      case ReadResponse(conn, id) => ReadKeeps(s, conn, id);
      case Send(conn) => SendKeeps(s, conn);
      case _ => CallStepKeeps(s, step);
    }
  }

  lemma {:induction false} RunKeeps(s: State, steps: seq<Step>, t: State)
    requires Inv(s) && Leads(s, steps, t)
    ensures Inv(t)
    decreases |steps|
  {
    if steps != [] {
      StepKeeps(s, steps[0]);
      RunKeeps(After(s, steps[0]), steps[1..], t);
    }
  }

  // ---- the theorems ------------------------------------------------------------------

  /** A call returns only a response bearing its own id on its own connection, and of those the first
      read since its entry was made; so no response reaches two calls. */
  lemma OwnFirstResponse(steps: seq<Step>, s: State, id: CallId)
    requires Leads(INITIAL, steps, s)
    requires id in s.calls && s.calls[id].phase.Returned? && s.calls[id].phase.outcome.Got?
    ensures var c, k := s.calls[id], s.calls[id].phase.outcome.k;
            && c.since <= k < |s.log| && s.log[k] == Read(c.conn, id)
            && (forall j :: c.since <= j < k ==> s.log[j] != Read(c.conn, id))
    ensures forall o :: o in s.calls && o != id && s.calls[o].phase.Returned? ==>
              s.calls[o].phase.outcome != s.calls[id].phase.outcome
  {
    RunKeeps(INITIAL, steps, s);
    assert Answered(s, id);
    forall o | o in s.calls && o != id && s.calls[o].phase.Returned?
      ensures s.calls[o].phase.outcome != s.calls[id].phase.outcome
    {
      assert Answered(s, o);
    }
  }

  /** No response is lost on a waiting call: once one has been read, the first is in its channel or
      about to be put there. */
  lemma WaitingCallIsServed(steps: seq<Step>, s: State, id: CallId, j: nat)
    requires Leads(INITIAL, steps, s) && Blocked(s, id)
    requires s.calls[id].since <= j < |s.log| && s.log[j] == Read(s.calls[id].conn, id)
    ensures Enabled(s, Receive(id)) || (Enabled(s, Send(s.calls[id].conn)) && Enabled(After(s, Send(s.calls[id].conn)), Receive(id)))
  {
    RunKeeps(INITIAL, steps, s);
    assert Answered(s, id);
  }

  /** No pending entry outlives its call: the entries are exactly those of calls still running. */
  lemma EntriesMatchCalls(steps: seq<Step>, s: State, r: Read)
    requires Leads(INITIAL, steps, s)
    ensures r in s.pending <==>
              r.id in s.calls && s.calls[r.id].conn == r.conn
              && (s.calls[r.id].phase.Waiting? || s.calls[r.id].phase.Leaving?)
  {
    RunKeeps(INITIAL, steps, s);
    assert r in s.pending <==> HasEntry(s, r);
  }

  /** An account has at most one serving connection; a connection's `closed` fires once, exactly when
      its serving ends, and from then on every call waiting on it can return. */
  lemma ClosedOnce(steps: seq<Step>, s: State, conn: ConnId)
    requires Leads(INITIAL, steps, s) && conn in s.conns
    ensures s.conns[conn].closes == if s.conns[conn].phase.Finished? then 1 else 0
    ensures s.conns[conn].phase.Serving? <==>
              s.conns[conn].account in s.workers && s.workers[s.conns[conn].account] == conn
    ensures s.conns[conn].phase.Finished? ==>
              forall id :: Blocked(s, id) && s.calls[id].conn == conn ==> Enabled(s, SeeClosed(id))
  {
    RunKeeps(INITIAL, steps, s);
    assert s.conns[conn].phase.Serving? <==> IsServing(s, conn, s.conns[conn].account);
  }

  // ---- the JSON-RPC client ---------------------------------------------------------------

  /** One connection, and call ids from a counter. */
  datatype Client = Client(core: State, next: nat)

  const PEER: ConnId := 0

  datatype ClientStep =
    | StartCall
    | Other(step: Step) // anything but registering or starting calls

  predicate ClientEnabled(c: Client, step: ClientStep) {
    match step
    case StartCall => true
    case Other(inner) => !inner.Register? && !inner.Lookup? && !inner.Attach? && Enabled(c.core, inner)
  }

  predicate Counts(c: Client) {
    && PEER in c.core.conns && !c.core.conns[PEER].phase.Refused?
    && forall id :: id in c.core.calls ==> 1 <= id <= c.next && c.core.calls[id].conn == PEER
  }

  /** The counter makes every call id new, so starting a call is always an Attach. */
  function ClientAfter(c: Client, step: ClientStep): (r: Client)
    requires Counts(c) && ClientEnabled(c, step)
    ensures Counts(r)
  {
    match step
    case StartCall => Client(After(c.core, Attach(c.next + 1, PEER)), c.next + 1)
    case Other(inner) => Client(After(c.core, inner), c.next)
  }

  ghost predicate ClientLeads(c: Client, steps: seq<ClientStep>, d: Client)
    decreases |steps|
  {
    Counts(c) && if steps == [] then c == d
    else ClientEnabled(c, steps[0]) && ClientLeads(ClientAfter(c, steps[0]), steps[1..], d)
  }

  const CLIENT: Client := Client(After(INITIAL, Register(PEER, "")), 0)

  /** Every run of the client is a run of the protocol, so all of the above holds of it without
      assuming new ids. */
  lemma {:induction false} ClientRefines(c: Client, steps: seq<ClientStep>, d: Client) returns (core: seq<Step>)
    requires ClientLeads(c, steps, d)
    ensures |core| == |steps| && Leads(c.core, core, d.core)
    decreases |steps|
  {
    if steps == [] {
      core := [];
    } else {
      var rest := ClientRefines(ClientAfter(c, steps[0]), steps[1..], d);
      core := [if steps[0].StartCall? then Attach(c.next + 1, PEER) else steps[0].step] + rest;
      assert core[1..] == rest;
    }
  }

  /** A JSON-RPC call returns the first response carrying its id. */
  lemma ClientResponse(steps: seq<ClientStep>, d: Client, id: CallId)
    requires ClientLeads(CLIENT, steps, d)
    requires id in d.core.calls && d.core.calls[id].phase.Returned? && d.core.calls[id].phase.outcome.Got?
    ensures var call, k := d.core.calls[id], d.core.calls[id].phase.outcome.k;
            && call.since <= k < |d.core.log| && d.core.log[k] == Read(PEER, id)
            && (forall j :: call.since <= j < k ==> d.core.log[j] != Read(PEER, id))
  {
    var core := ClientRefines(CLIENT, steps, d);
    ClientCounts(CLIENT, steps, d);
    var first := Register(PEER, "");
    assert ([first] + core)[1..] == core;
    assert Leads(INITIAL, [first] + core, d.core);
    OwnFirstResponse([first] + core, d.core, id);
  }

  lemma {:induction false} ClientCounts(c: Client, steps: seq<ClientStep>, d: Client)
    requires ClientLeads(c, steps, d)
    ensures Counts(d)
    decreases |steps|
  {
    if steps != [] {
      ClientCounts(ClientAfter(c, steps[0]), steps[1..], d);
    }
  }
}

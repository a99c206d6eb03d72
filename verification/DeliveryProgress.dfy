/** An outstanding message can always be brought through: the steps that do it. */
module DeliveryProgress {
  import opened Prelude
  import opened Protocol
  import opened Delivery

  /** Steps of a connection in good order. */
  predicate Orderly(step: Step) {
    step == StartBatch || step == SendNext || step == HubTake || step == HubAck || step == ReceiveAck(true)
  }

  ghost predicate AllOrderly(steps: seq<Step>) { forall i :: 0 <= i < |steps| ==> Orderly(steps[i]) }

  ghost predicate Reachable(s: State) { exists steps :: Leads(INITIAL, steps, s) }

  /** Both ends are up and the first outstanding event is the good message `e`. */
  ghost predicate IsNext(s: State, e: Envelope) {
    && Reachable(s) && s.workerUp && s.hubUp
    && Only(s.hist, Owed(s)) != [] && Only(s.hist, Owed(s))[0] == e
    && IsGoodMessage(e) && e.id != ""
  }

  lemma {:induction false} LeadsTrans(s: State, a: seq<Step>, t: State, b: seq<Step>, u: State)
    requires Leads(s, a, t) && Leads(t, b, u)
    ensures Leads(s, a + b, u)
    decreases |a|
  {
    if a == [] {
      assert a + b == b;
    } else {
      LeadsTrans(After(s, a[0]), a[1..], t, b, u);
      OneStep(s, a[0], a[1..] + b, u);
      FirstApart(a, b);
    }
  }

  lemma FirstApart(a: seq<Step>, b: seq<Step>)
    requires a != []
    ensures a + b == [a[0]] + (a[1..] + b)
  {
  }

  lemma OneStep(s: State, step: Step, rest: seq<Step>, t: State)
    requires Enabled(s, step) && Leads(After(s, step), rest, t)
    ensures Leads(s, [step] + rest, t)
  {
    assert ([step] + rest)[1..] == rest;
  }

  lemma StepReaches(s: State, step: Step)
    requires Reachable(s) && Enabled(s, step)
    ensures Reachable(After(s, step))
  {
    var steps :| Leads(INITIAL, steps, s);
    assert Leads(After(s, step), [], After(s, step));
    OneStep(s, step, [], After(s, step));
    LeadsTrans(INITIAL, steps, s, [step] + [], After(s, step));
  }

  lemma ReachedShape(s: State)
    requires Reachable(s)
    ensures Shape(s)
  {
    var steps :| Leads(INITIAL, steps, s);
    Reached(steps, s);
  }

  lemma ReachedSpool(s: State)
    requires Reachable(s)
    ensures SpoolHoldsOwed(s)
  {
    var steps :| Leads(INITIAL, steps, s);
    Reached(steps, s);
  }

  lemma ReachedPipe(s: State)
    requires Reachable(s)
    ensures PipeHoldsOwed(s)
  {
    var steps :| Leads(INITIAL, steps, s);
    Reached(steps, s);
  }

  /** The event is outstanding, visible in the spool, and acceptable. */
  lemma NextFacts(s: State, e: Envelope)
    requires IsNext(s, e)
    ensures e in s.hist && e.id in Owed(s) && e in Visible(s.store) && HubVerdict(e) == Accept
    ensures e.id !in Ids(s.log) && e.id !in s.lost
  {
    ReachedSpool(s);
    var owed := Only(s.hist, Owed(s));
    assert e in owed;
    OnlyMember(s.hist, Owed(s), e);
    assert e in Only(Visible(s.store), Owed(s));
    OnlyMember(Visible(s.store), Owed(s), e);
  }

  // ---- onto the wire ------------------------------------------------------------

  /** If it is not on the wire, it has not been sent on this connection. */
  lemma UnsentUnlessOnWire(s: State, e: Envelope)
    requires IsNext(s, e) && e !in s.up
    ensures e.id !in s.sent
  {
    ReachedPipe(s);
    var owed := Owed(s);
    var a, b := Only(s.up, owed), Only(s.batch, owed - s.sent);
    var c := Only(Visible(s.store), owed - s.sent - Ids(s.batch));
    assert a + b + c == Only(s.hist, owed);
    assert e in a + b + c;
    OnlyMember(s.up, owed, e);
    OnlyMember(s.batch, owed - s.sent, e);
    OnlyMember(Visible(s.store), owed - s.sent - Ids(s.batch), e);
  }

  lemma SameOwed(s: State, step: Step)
    requires Enabled(s, step) && (step == StartBatch || step == SendNext || step == HubAck)
    ensures var t := After(s, step);
            && t.hist == s.hist && t.log == s.log && t.lost == s.lost && t.store == s.store
            && t.workerUp == s.workerUp && t.hubUp == s.hubUp && t.ingested == s.ingested && Owed(t) == Owed(s)
  {
  }

  lemma StillNext(s: State, step: Step, e: Envelope)
    requires IsNext(s, e) && Enabled(s, step)
    requires step == StartBatch || step == SendNext || step == HubAck
    ensures IsNext(After(s, step), e)
  {
    StepReaches(s, step);
    SameOwed(s, step);
  }

  /** The next of the batch moves onto the wire, unless it was sent before. */
  lemma SendsOrSkips(s: State)
    requires Enabled(s, SendNext)
    ensures var t := After(s, SendNext);
            && t.batch == s.batch[1..] && s.batch == [s.batch[0]] + t.batch
            && (s.hubUp && s.batch[0].id !in s.sent ==> t.up == s.up + [s.batch[0]])
  {
  }

  lemma {:induction false} ToWire(s: State, e: Envelope) returns (steps: seq<Step>, t: State)
    requires IsNext(s, e)
    ensures Leads(s, steps, t) && AllOrderly(steps)
    ensures IsNext(t, e) && e in t.up
    decreases if e in s.up then 0 else if e in s.batch then 1 else 2, |s.batch|
  {
    if e in s.up {
      return [], s;
    }
    var step := if s.batch == [] then StartBatch else SendNext;
    var next := After(s, step);
    StillNext(s, step, e);
    if s.batch == [] {
      NextFacts(s, e);
    } else {
      UnsentUnlessOnWire(s, e);
      SendsOrSkips(s);
    }
    var rest, u := ToWire(next, e);
    steps, t := [step] + rest, u;
    OneStep(s, step, rest, t);
  }

  // ---- through the hub ------------------------------------------------------------

  /** Handled and about to be acknowledged. */
  ghost predicate IsHandled(s: State, e: Envelope) {
    && Reachable(s) && s.workerUp && s.hubUp && s.ackDue == Some(e.id)
    && e in s.log && e.payload.MessagePayload? && e.payload.message in s.ingested && e in Visible(s.store)
  }

  /** What lies before it on the wire is not outstanding. */
  lemma AheadIsSettled(s: State, e: Envelope)
    requires IsNext(s, e) && s.up != [] && s.up[0] != e
    ensures s.up[0].id !in Owed(s)
  {
    ReachedPipe(s);
    OnlyFirst(s.up[0], s.up[1..], Owed(s));
    assert s.up == [s.up[0]] + s.up[1..];
  }

  /** So it is skipped, or was handled before. */
  lemma AheadIsTaken(s: State, e: Envelope)
    requires IsNext(s, e) && Enabled(s, HubTake) && s.up[0] != e
    ensures s.up[0].id !in Relevant(s.hist) || s.up[0].id in Ids(s.log)
    ensures s.up[0] in s.hist && HubVerdict(s.up[0]) != Reject
  {
    var h := s.up[0];
    AheadIsSettled(s, e);
    ReachedPipe(s);
    ReachedShape(s);
    assert h in s.up && h.id in Ids(s.up);
    IgnoredIsIrrelevant(s.hist, h);
    if h.id in Ids(s.log) {
      var o :| o in s.log && o.id == h.id;
      HistoryById(s.hist, o, h);
    }
  }

  lemma TakeSkips(s: State)
    requires Enabled(s, HubTake) && HubVerdict(s.up[0]) != Reject
    requires HubVerdict(s.up[0]) == Accept ==> s.up[0].id in Ids(s.log)
    ensures var t := After(s, HubTake);
            && t.up == s.up[1..] && s.up == [s.up[0]] + t.up
            && t.hist == s.hist && t.log == s.log && t.lost == s.lost && Owed(t) == Owed(s)
            && t.workerUp == s.workerUp && t.hubUp == s.hubUp
  {
  }

  lemma SkipsToNext(s: State, e: Envelope)
    requires IsNext(s, e) && Enabled(s, HubTake) && s.up[0] != e
    ensures IsNext(After(s, HubTake), e)
    ensures After(s, HubTake).up == s.up[1..] && s.up == [s.up[0]] + s.up[1..]
  {
    AheadIsTaken(s, e);
    AcceptedIsLogged(s, s.up[0]);
    TakeSkips(s);
    StepReaches(s, HubTake);
  }

  lemma AcceptedIsLogged(s: State, h: Envelope)
    requires h in s.hist && (h.id !in Relevant(s.hist) || h.id in Ids(s.log))
    ensures HubVerdict(h) == Accept ==> h.id in Ids(s.log)
  {
  }

  lemma HubHandles(s: State, e: Envelope)
    requires IsNext(s, e) && Enabled(s, HubTake) && s.up[0] == e
    ensures IsHandled(After(s, HubTake), e)
  {
    NextFacts(s, e);
    HubTakesIff(s);
    StepReaches(s, HubTake);
    TakeSparesStore(s);
    var t := After(s, HubTake);
    assert t.log == s.log + [e];
    assert t.ingested == s.ingested + [e.payload.message];
  }

  lemma TakeSparesStore(s: State)
    requires Enabled(s, HubTake)
    ensures After(s, HubTake).store == s.store && After(s, HubTake).workerUp == s.workerUp
  {
  }

  lemma {:induction false} ToHandled(s: State, e: Envelope) returns (steps: seq<Step>, t: State)
    requires IsNext(s, e) && e in s.up
    ensures Leads(s, steps, t) && AllOrderly(steps) && IsHandled(t, e)
    decreases |s.up|, if s.ackDue.Some? then 1 else 0
  {
    var step := if s.ackDue.Some? then HubAck else HubTake;
    if step == HubTake && s.up[0] == e {
      HubHandles(s, e);
      OneStep(s, step, [], After(s, step));
      return [step] + [], After(s, step);
    }
    if s.ackDue.Some? {
      StillNext(s, HubAck, e);
      AckSparesWire(s);
    } else {
      SkipsToNext(s, e);
    }
    var rest, u := ToHandled(After(s, step), e);
    steps, t := [step] + rest, u;
    OneStep(s, step, rest, t);
  }

  lemma AckSparesWire(s: State)
    requires Enabled(s, HubAck)
    ensures var t := After(s, HubAck);
            t.up == s.up && t.ackDue.None? && (s.workerUp ==> t.down == s.down + [s.ackDue.value])
  {
  }

  // ---- and out of the spool ----------------------------------------------------------

  lemma RewriteDrops(store: seq<Entry>, drop: set<string>, id: string)
    requires id in drop
    ensures id !in StoreIds(Rewrite(store, drop, {}, true))
  {
    RewriteSpec(store, drop, {}, true);
  }

  lemma RewriteSpares(store: seq<Entry>, id: string, e: Envelope)
    requires Unique(store) && e in Visible(store) && e.id != id
    ensures e in Visible(Rewrite(store, Removed(store) + {id}, {}, true))
  {
    VisibleMember(store);
    var x :| x in store && x.event == e && !x.presence.Doomed?;
    OneEntryPerId(store);
    RewriteSpec(store, Removed(store) + {id}, {}, true);
    var y := x.(presence := Fate(x, {}, true));
    assert y in Rewrite(store, Removed(store) + {id}, {}, true);
    VisibleMember(Rewrite(store, Removed(store) + {id}, {}, true));
  }

  /** An acknowledgement takes its event out of the spool and spares the others. */
  lemma AckRemoves(s: State, e: Envelope)
    requires Enabled(s, ReceiveAck(true)) && Unique(s.store) && e in Visible(s.store)
    ensures var t := After(s, ReceiveAck(true));
            && t.workerUp && t.down == s.down[1..] && t.log == s.log && t.ingested == s.ingested
            && (s.down[0] == e.id ==> e.id !in StoreIds(t.store))
            && (s.down[0] != e.id ==> e in Visible(t.store))
  {
    var d := s.down[0];
    if d == e.id {
      assert d in Ids(Visible(s.store));
      RewriteDrops(s.store, Removed(s.store) + {d}, d);
    } else if d in Ids(Visible(s.store)) {
      RewriteSpares(s.store, d, e);
    }
  }

  lemma {:induction false} ToGone(s: State, e: Envelope) returns (steps: seq<Step>, t: State)
    requires Reachable(s) && s.workerUp && e.id in s.down && e in Visible(s.store)
    ensures Leads(s, steps, t) && AllOrderly(steps)
    ensures e.id !in StoreIds(t.store) && t.log == s.log && t.ingested == s.ingested
    decreases |s.down|
  {
    var step := ReceiveAck(true);
    var next := After(s, step);
    StoreUnique(s);
    AckRemoves(s, e);
    StepReaches(s, step);
    if s.down[0] == e.id {
      OneStep(s, step, [], next);
      return [step] + [], next;
    }
    assert s.down == [s.down[0]] + s.down[1..];
    var rest, u := ToGone(next, e);
    steps, t := [step] + rest, u;
    OneStep(s, step, rest, t);
  }

  lemma StoreUnique(s: State)
    requires Reachable(s)
    ensures Unique(s.store)
  {
    ReachedShape(s);
  }

  /** Progress: from every reachable state with both ends up whose first outstanding event is a good message,
      the connection's own steps handle it, commit it and remove it from the spool. */
  lemma MessageComesThrough(before: seq<Step>, s: State, e: Envelope) returns (steps: seq<Step>, t: State)
    requires Leads(INITIAL, before, s) && s.workerUp && s.hubUp
    requires Only(s.hist, Owed(s)) != [] && Only(s.hist, Owed(s))[0] == e
    requires IsGoodMessage(e) && e.id != ""
    ensures Leads(s, steps, t) && AllOrderly(steps)
    ensures e in t.log && e.payload.message in t.ingested && e.id !in StoreIds(t.store)
  {
    var a, u := ToWire(s, e);
    var b, v := ToHandled(u, e);
    var c, w := ToRemoved(v, e);
    LeadsTrans(u, b, v, c, w);
    LeadsTrans(s, a, u, b + c, w);
    steps, t := a + (b + c), w;
  }

  lemma ToRemoved(s: State, e: Envelope) returns (steps: seq<Step>, t: State)
    requires IsHandled(s, e)
    ensures Leads(s, steps, t) && AllOrderly(steps)
    ensures e.id !in StoreIds(t.store) && t.log == s.log && t.ingested == s.ingested
  {
    StepReaches(s, HubAck);
    AckSparesWire(s);
    SameOwed(s, HubAck);
    var rest, u := ToGone(After(s, HubAck), e);
    steps, t := [HubAck] + rest, u;
    OneStep(s, HubAck, rest, t);
  }
}

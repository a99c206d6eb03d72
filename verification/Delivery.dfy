/** Inbound delivery: the worker's spool and replay loop, the connection, and the hub's
    handle-then-acknowledge loop, as one transition system for one account. */
module Delivery {
  import opened Prelude
  import opened Protocol

  // ---- what the hub does with one envelope ---------------------------------

  datatype Verdict =
    | Accept   // handled, then acknowledged
    | Ignore   // skipped without acknowledgement
    | Reject   // the handler fails and the connection ends

  /** The read loop of ServeWorker with the event callback of the API process. The worker stamps
      the connection's generation on every event, so the stale-generation branch is not taken. */
  function HubVerdict(e: Envelope): Verdict {
    if !e.Validates() || e.kind == TYPE_HEARTBEAT then Ignore
    else if e.id != "" && (e.status != "" || e.hasError) then Ignore
    else if e.kind == TYPE_ACCOUNT_STATUS then
      if !e.payload.StatusPayload? then Ignore
      else if e.payload.state in {"live", "unlinked", "linking", "upgrade_required"} then Accept
      else Reject
    else if e.kind == TYPE_MESSAGE_NEW && e.payload.MessagePayload? && Acceptable(e.payload.message) then Accept
    else Reject
  }

  // ---- state ---------------------------------------------------------------

  datatype Presence =
    | Kept       // visible and durable
    | Unsynced   // visible; its append was interrupted, a crash may lose it
    | Doomed     // removed; the removal is not synced, a crash may bring it back

  datatype Entry = Entry(event: Envelope, presence: Presence)

  datatype State = State(
    // worker, durable: the spool directory in file-name order
    store: seq<Entry>,
    // worker session
    workerUp: bool, batch: seq<Envelope>, sent: set<string>, down: seq<string>,
    // hub handler of the account's registered connection
    hubUp: bool, up: seq<Envelope>, ackDue: Option<string>,
    // history
    hist: seq<Envelope>,       // every event ever put into the spool, in that order
    confirmed: set<string>,    // those whose append reported success
    lost: set<string>,         // interrupted appends that a crash took away
    log: seq<Envelope>,        // events handled by the hub, in the order first handled
    ingested: seq<WireMessage> // messages committed by IngestMessage, in order, replays included
  )

  const INITIAL: State :=
    State([], false, [], {}, [], false, [], None, [], {}, {}, [], [])

  /** What `Pending` returns. */
  ghost function Visible(store: seq<Entry>): seq<Envelope> {
    if store == [] then []
    else (if store[0].presence.Doomed? then [] else [store[0].event]) + Visible(store[1..])
  }

  /** Drop the entries in `drop`, mark those in `doom` removed, and make the rest durable if `settle`. */
  ghost function Rewrite(store: seq<Entry>, drop: set<string>, doom: set<string>, settle: bool): seq<Entry> {
    if store == [] then []
    else
      (if store[0].event.id in drop then []
       else [store[0].(presence := Fate(store[0], doom, settle))])
      + Rewrite(store[1..], drop, doom, settle)
  }

  function Fate(x: Entry, doom: set<string>, settle: bool): Presence {
    if x.event.id in doom then Doomed else if settle then Kept else x.presence
  }

  ghost function Removed(store: seq<Entry>): set<string> {
    set x | x in store && x.presence.Doomed? :: x.event.id
  }

  /** A successful directory sync settles everything outstanding. */
  ghost function Flush(store: seq<Entry>): seq<Entry> { Rewrite(store, Removed(store), {}, true) }

  ghost function Vanishing(store: seq<Entry>, keep: set<string>): set<string> {
    set x | x in store && x.presence.Unsynced? && x.event.id !in keep :: x.event.id
  }

  /** A crash keeps what is durable and an arbitrary part of the rest. */
  ghost function Recover(store: seq<Entry>, keep: set<string>): seq<Entry> {
    Rewrite(store, Vanishing(store, keep) + (Removed(store) - keep), {}, true)
  }

  // ---- steps ---------------------------------------------------------------

  datatype Step =
    | AppendDone(event: Envelope)
    | AppendInterrupted(event: Envelope, at: nat)
    | Connect
    | StartBatch
    | SendNext
    | ReceiveAck(synced: bool)
    | WorkerClose
    | WorkerCrash(keep: set<string>)
    | HubTake
    | HubAck
    | HubClose        // read or write failure, handler failure, API restart

  ghost predicate Enabled(s: State, step: Step) {
    match step
    case AppendDone(e) => e.id != "" && e.id !in Ids(s.hist)
    case AppendInterrupted(e, at) =>
      // The new name sorts after every visible one; where it falls among removed ones is open.
      e.id != "" && e.id !in Ids(s.hist) && at <= |s.store|
      && forall i :: at <= i < |s.store| ==> s.store[i].presence.Doomed?
    case Connect => !s.workerUp && !s.hubUp
    case StartBatch => s.workerUp && s.batch == []
    case SendNext => s.workerUp && s.batch != []
    case ReceiveAck(_) => s.workerUp && s.down != []
    case WorkerClose => s.workerUp
    case WorkerCrash(_) => true
    case HubTake => s.hubUp && s.up != [] && s.ackDue.None?
    case HubAck => s.hubUp && s.ackDue.Some?
    case HubClose => s.hubUp
  }

  ghost function CloseWorker(s: State): State {
    s.(workerUp := false, batch := [], sent := {}, down := [])
  }

  ghost function CloseHub(s: State): State {
    s.(hubUp := false, up := [], ackDue := None)
  }

  ghost function Handle(s: State, e: Envelope): State
    requires s.up != []
  {
    s.(log := if e.id in Ids(s.log) then s.log else s.log + [e],
       ingested := if e.payload.MessagePayload? then s.ingested + [e.payload.message] else s.ingested,
       ackDue := Some(e.id), up := s.up[1..])
  }

  ghost function After(s: State, step: Step): State
    requires Enabled(s, step)
  {
    match step
    case AppendDone(e) =>
      s.(store := Flush(s.store) + [Entry(e, Kept)], hist := s.hist + [e], confirmed := s.confirmed + {e.id})
    case AppendInterrupted(e, at) =>
      s.(store := s.store[..at] + [Entry(e, Unsynced)] + s.store[at..], hist := s.hist + [e])
    case Connect =>
      s.(workerUp := true, batch := [], sent := {}, down := [], hubUp := true, up := [], ackDue := None)
    case StartBatch => s.(batch := Visible(s.store))
    case SendNext =>
      var e := s.batch[0];
      if e.id in s.sent then s.(batch := s.batch[1..])
      else s.(batch := s.batch[1..], sent := s.sent + {e.id}, up := if s.hubUp then s.up + [e] else s.up)
    case ReceiveAck(synced) =>
      var id := s.down[0];
      var rest := s.(down := s.down[1..]);
      if id !in Ids(Visible(s.store)) then rest.(sent := s.sent - {id})
      else if synced then rest.(store := Rewrite(s.store, Removed(s.store) + {id}, {}, true), sent := s.sent - {id})
      else CloseWorker(s).(store := Rewrite(s.store, {}, {id}, false))
    case WorkerClose => CloseWorker(s)
    case WorkerCrash(keep) =>
      CloseWorker(s).(store := Recover(s.store, keep), lost := s.lost + Vanishing(s.store, keep))
    case HubTake =>
      var e := s.up[0];
      match HubVerdict(e) {
        case Ignore => s.(up := s.up[1..])
        case Reject => CloseHub(s)
        case Accept => Handle(s, e)
      }
    case HubAck =>
      s.(ackDue := None, down := if s.workerUp then s.down + [s.ackDue.value] else s.down)
    case HubClose => CloseHub(s)
  }

  /** The steps, taken one after another, lead from `s` to `t`. */
  ghost predicate Leads(s: State, steps: seq<Step>, t: State)
    decreases |steps|
  {
    if steps == [] then s == t
    else Enabled(s, steps[0]) && Leads(After(s, steps[0]), steps[1..], t)
  }

  // ---- what must be delivered ----------------------------------------------

  /** Events the hub will not skip. */
  ghost function Relevant(hist: seq<Envelope>): set<string> {
    set e | e in hist && HubVerdict(e) != Ignore :: e.id
  }

  /** Relevant, not yet handled, not lost. */
  ghost function Owed(s: State): set<string> { Relevant(s.hist) - Ids(s.log) - s.lost }

  /** The same, plus lost events that are still on their way to the hub. */
  ghost function Alive(s: State): set<string> { Relevant(s.hist) - Ids(s.log) - (s.lost - Ids(s.up)) }

  // ---- the invariant -------------------------------------------------------

  ghost predicate Distinct(s: seq<Envelope>) {
    forall i, j :: 0 <= i < j < |s| ==> s[i].id != s[j].id
  }

  ghost function StoreIds(store: seq<Entry>): set<string> { set x | x in store :: x.event.id }

  ghost predicate Unique(store: seq<Entry>) {
    store == [] || (store[0].event.id !in StoreIds(store[1..]) && Unique(store[1..]))
  }

  ghost predicate FromHistory(s: seq<Envelope>, hist: seq<Envelope>) {
    forall e :: e in s ==> e in hist
  }

  ghost predicate Shape(s: State) {
    && Distinct(s.hist)
    && (forall x :: x in s.store ==> x.event in s.hist && x.event.id !in s.lost)
    && (forall x :: x in s.store && x.presence.Doomed? ==> x.event.id in Ids(s.log))
    && Unique(s.store)
    && FromHistory(s.batch, s.hist) && Distinct(s.batch) && Ids(s.batch) !! s.lost
    && FromHistory(s.up, s.hist)
    && FromHistory(s.log, s.hist) && (forall e :: e in s.log ==> HubVerdict(e) == Accept)
    && s.sent <= Ids(s.hist)
    && (forall id :: id in s.down ==> id in Ids(s.log))
    && (s.ackDue.Some? ==> s.ackDue.value in Ids(s.log))
    && s.lost <= Ids(s.hist)
    && (!s.hubUp ==> s.up == [] && s.ackDue == None)
    && (!s.workerUp ==> s.batch == [] && s.sent == {} && s.down == [])
  }

  /** The spool holds everything owed, in append order. */
  ghost predicate SpoolHoldsOwed(s: State) {
    Only(Visible(s.store), Owed(s)) == Only(s.hist, Owed(s))
  }

  /** While both ends are up, what is on the wire, in the batch and still to be sent is
      everything owed, in append order. */
  ghost predicate PipeHoldsOwed(s: State) {
    s.workerUp && s.hubUp ==>
      && Ids(s.up) !! s.lost
      && Only(s.up, Owed(s)) + Only(s.batch, Owed(s) - s.sent)
         + Only(Visible(s.store), Owed(s) - s.sent - Ids(s.batch))
         == Only(s.hist, Owed(s))
  }

  /** The hub always meets the earliest outstanding event first. */
  ghost predicate WireInOrder(s: State) {
    Only(s.up, Alive(s)) <= Only(s.hist, Alive(s))
  }

  /** Everything handled precedes everything outstanding. */
  ghost predicate HandledFirst(s: State) {
    Only(s.hist, Alive(s) + Ids(s.log)) == s.log + Only(s.hist, Alive(s))
  }

  ghost predicate NothingLost(s: State) {
    forall id :: id in s.confirmed ==>
      id in Ids(s.log) || exists x :: x in s.store && x.event.id == id && x.presence == Kept
  }

  ghost predicate EffectsRecorded(s: State) {
    forall e :: e in s.log && e.payload.MessagePayload? ==> e.payload.message in s.ingested
  }

  ghost predicate Inv(s: State) {
    && Shape(s)
    && SpoolHoldsOwed(s)
    && PipeHoldsOwed(s)
    && WireInOrder(s)
    && HandledFirst(s)
    && NothingLost(s)
    && EffectsRecorded(s)
  }

  // ---- sequence lemmas -----------------------------------------------------

  lemma {:induction false} VisibleMember(store: seq<Entry>)
    ensures forall e :: e in Visible(store) <==> exists x :: x in store && x.event == e && !x.presence.Doomed?
  {
    if store != [] {
      VisibleMember(store[1..]);
      assert forall x :: x in store <==> x == store[0] || x in store[1..];
    }
  }

  lemma {:induction false} VisibleConcat(a: seq<Entry>, b: seq<Entry>)
    ensures Visible(a + b) == Visible(a) + Visible(b)
  {
    if a == [] {
      assert a + b == b;
    } else {
      assert (a + b)[1..] == a[1..] + b;
      VisibleConcat(a[1..], b);
    }
  }

  lemma {:induction false} VisibleNone(store: seq<Entry>)
    requires forall i :: 0 <= i < |store| ==> store[i].presence.Doomed?
    ensures Visible(store) == []
  {
    if store != [] {
      VisibleNone(store[1..]);
    }
  }

  lemma {:induction false} VisibleDistinct(store: seq<Entry>)
    requires Unique(store)
    ensures Distinct(Visible(store))
  {
    if store != [] {
      VisibleDistinct(store[1..]);
      VisibleMember(store[1..]);
      var v := Visible(store[1..]);
      forall i | 0 <= i < |v|
        ensures v[i].id != store[0].event.id
      {
        assert v[i] in v;
      }
    }
  }

  lemma UniqueFirst(x: Entry, rest: seq<Entry>)
    ensures Unique([x] + rest) <==> x.event.id !in StoreIds(rest) && Unique(rest)
  {
    assert ([x] + rest)[1..] == rest;
  }

  lemma StoreIdsSplit(a: seq<Entry>, b: seq<Entry>)
    ensures StoreIds(a + b) == StoreIds(a) + StoreIds(b)
  {
    assert forall x :: x in a + b <==> x in a || x in b;
  }

  lemma {:induction false} UniqueInsert(a: seq<Entry>, x: Entry, b: seq<Entry>)
    requires Unique(a + b) && x.event.id !in StoreIds(a + b)
    ensures Unique(a + [x] + b)
    ensures forall y :: y in a + [x] + b <==> y == x || y in a + b
  {
    assert forall y :: y in a + [x] + b <==> y == x || y in a + b;
    if a == [] {
      assert a + b == b && a + [x] + b == [x] + b;
      UniqueFirst(x, b);
    } else {
      var first, rest := a[0], a[1..];
      assert a + b == [first] + (rest + b) && a + [x] + b == [first] + (rest + [x] + b);
      UniqueFirst(first, rest + b);
      UniqueFirst(first, rest + [x] + b);
      StoreIdsSplit([first], rest + b);
      StoreIdsSplit(rest + [x], b);
      StoreIdsSplit(rest, [x]);
      StoreIdsSplit(rest, b);
      assert first in [first] + (rest + b);
      UniqueInsert(rest, x, b);
    }
  }

  lemma {:induction false} RewriteSpec(store: seq<Entry>, drop: set<string>, doom: set<string>, settle: bool)
    ensures forall y :: y in Rewrite(store, drop, doom, settle) ==>
              exists x :: x in store && x.event.id !in drop && y == x.(presence := Fate(x, doom, settle))
    ensures forall x :: x in store && x.event.id !in drop ==>
              x.(presence := Fate(x, doom, settle)) in Rewrite(store, drop, doom, settle)
  {
    if store != [] {
      RewriteSpec(store[1..], drop, doom, settle);
      assert forall x :: x in store <==> x == store[0] || x in store[1..];
    }
  }

  lemma {:induction false} RewriteUnique(store: seq<Entry>, drop: set<string>, doom: set<string>, settle: bool)
    requires Unique(store)
    ensures Unique(Rewrite(store, drop, doom, settle))
  {
    if store != [] {
      RewriteUnique(store[1..], drop, doom, settle);
      RewriteSpec(store[1..], drop, doom, settle);
      var rest := Rewrite(store[1..], drop, doom, settle);
      assert StoreIds(rest) <= StoreIds(store[1..]);
      if store[0].event.id !in drop {
        assert Rewrite(store, drop, doom, settle)[1..] == rest;
      } else {
        assert Rewrite(store, drop, doom, settle) == rest;
      }
    }
  }

  /** A rewrite that leaves the owed events visible leaves them in order. */
  lemma {:induction false} RewriteVisible(
      store: seq<Entry>, drop: set<string>, doom: set<string>, settle: bool, ids: set<string>)
    requires forall x :: x in store && x.event.id in ids ==>
               !x.presence.Doomed? && x.event.id !in drop && x.event.id !in doom
    ensures Only(Visible(Rewrite(store, drop, doom, settle)), ids) == Only(Visible(store), ids)
  {
    if store != [] {
      RewriteVisible(store[1..], drop, doom, settle, ids);
      var head := if store[0].event.id in drop then []
                  else [store[0].(presence := Fate(store[0], doom, settle))];
      var rest := Rewrite(store[1..], drop, doom, settle);
      VisibleConcat(head, rest);
      OnlyConcat(Visible(head), Visible(rest), ids);
      var seen := if store[0].presence.Doomed? then [] else [store[0].event];
      OnlyConcat(seen, Visible(store[1..]), ids);
      assert store[0] in store;
      assert Only(Visible(head), ids) == Only(seen, ids);
    }
  }

  lemma {:induction false} OnlyDistinct(s: seq<Envelope>, ids: set<string>)
    requires Distinct(s)
    ensures Distinct(Only(s, ids))
  {
    if s != [] {
      OnlyDistinct(s[1..], ids);
      var t := Only(s[1..], ids);
      forall i | 0 <= i < |t|
        ensures t[i].id != s[0].id
      {
        OnlyMember(s[1..], ids, t[i]);
      }
    }
  }

  /** A restriction of a restriction. */
  lemma Restrict(s: seq<Envelope>, ids: set<string>, fewer: set<string>)
    requires fewer <= ids
    ensures Only(Only(s, ids), fewer) == Only(s, fewer)
  {
    OnlyTwice(s, ids, fewer);
    assert ids * fewer == fewer;
  }

  lemma RestrictPrefix(a: seq<Envelope>, b: seq<Envelope>, ids: set<string>)
    requires a <= b
    ensures Only(a, ids) <= Only(b, ids)
  {
    assert b == a + b[|a|..];
    OnlyConcat(a, b[|a|..], ids);
  }

  // ---- appending -----------------------------------------------------------

  ghost function Extra(e: Envelope): set<string> { if HubVerdict(e) != Ignore then {e.id} else {} }

  /** `t` is `s` with a fresh event at the end of its history and of its spool. */
  ghost predicate Appended(s: State, e: Envelope, t: State) {
    && t.hist == s.hist + [e] && Visible(t.store) == Visible(s.store) + [e]
    && t == s.(store := t.store, hist := t.hist, confirmed := t.confirmed)
    && e.id !in Ids(s.hist) && e.id !in s.sent && e.id !in Ids(s.batch)
    && e.id !in Owed(s) && e.id !in Alive(s) && e.id !in Ids(s.log)
    && Owed(t) == Owed(s) + Extra(e) && Alive(t) == Alive(s) + Extra(e)
    && FromHistory(Visible(s.store), s.hist) && FromHistory(s.up, s.hist) && FromHistory(s.batch, s.hist)
  }

  lemma AppendSets(s: State, e: Envelope, t: State)
    requires Shape(s) && e.id !in Ids(s.hist)
    requires t.hist == s.hist + [e] && Visible(t.store) == Visible(s.store) + [e]
    requires t == s.(store := t.store, hist := t.hist, confirmed := t.confirmed)
    ensures Appended(s, e, t)
  {
    assert Relevant(t.hist) == Relevant(s.hist) + Extra(e);
    VisibleInHistory(s);
    assert e.id !in s.lost;
  }

  /** Appending a fresh event extends what is owed at the end, on every side. */
  lemma AppendExtendsSpool(s: State, e: Envelope, t: State)
    requires Appended(s, e, t) && SpoolHoldsOwed(s)
    ensures SpoolHoldsOwed(t)
  {
    FreshLast(s.hist, s.hist, e, Owed(s), Extra(e));
    FreshLast(Visible(s.store), s.hist, e, Owed(s), Extra(e));
  }

  /** The wire and the batch are as before; the event is still to be read from the spool. */
  lemma AppendExtendsSides(s: State, e: Envelope, t: State)
    requires Appended(s, e, t)
    ensures Only(t.up, Owed(t)) == Only(s.up, Owed(s))
    ensures Only(t.batch, Owed(t) - t.sent) == Only(s.batch, Owed(s) - s.sent)
  {
    var unsent := Owed(s) - s.sent;
    assert Owed(t) - t.sent == unsent + Extra(e);
    FreshLast(s.up, s.hist, e, Owed(s), Extra(e));
    FreshLast(s.batch, s.hist, e, unsent, Extra(e));
  }

  lemma AppendExtendsRest(s: State, e: Envelope, t: State)
    requires Appended(s, e, t)
    ensures Only(Visible(t.store), Owed(t) - t.sent - Ids(t.batch))
         == Only(Visible(s.store), Owed(s) - s.sent - Ids(s.batch)) + Only([e], Extra(e))
    ensures Only(t.hist, Owed(t)) == Only(s.hist, Owed(s)) + Only([e], Extra(e))
  {
    var rest := Owed(s) - s.sent - Ids(s.batch);
    assert Owed(t) - t.sent - Ids(t.batch) == rest + Extra(e);
    FreshLast(s.hist, s.hist, e, Owed(s), Extra(e));
    FreshLast(Visible(s.store), s.hist, e, rest, Extra(e));
  }

  lemma AppendExtendsPipe(s: State, e: Envelope, t: State)
    requires Appended(s, e, t) && PipeHoldsOwed(s)
    ensures PipeHoldsOwed(t)
  {
    AppendExtendsSides(s, e, t);
    AppendExtendsRest(s, e, t);
  }

  lemma AppendExtendsWire(s: State, e: Envelope, t: State)
    requires Appended(s, e, t) && WireInOrder(s)
    ensures WireInOrder(t)
  {
    FreshLast(s.up, s.hist, e, Alive(s), Extra(e));
    FreshLast(s.hist, s.hist, e, Alive(s), Extra(e));
  }

  lemma AppendExtendsHandled(s: State, e: Envelope, t: State)
    requires Appended(s, e, t) && HandledFirst(s)
    ensures HandledFirst(t)
  {
    FreshLast(s.hist, s.hist, e, Alive(s), Extra(e));
    FreshLast(s.hist, s.hist, e, Alive(s) + Ids(s.log), Extra(e));
    assert Alive(t) + Ids(s.log) == Alive(s) + Ids(s.log) + Extra(e);
  }

  lemma AppendExtends(s: State, e: Envelope, t: State)
    requires Appended(s, e, t)
    requires SpoolHoldsOwed(s) && PipeHoldsOwed(s) && WireInOrder(s) && HandledFirst(s)
    ensures SpoolHoldsOwed(t) && PipeHoldsOwed(t) && WireInOrder(t) && HandledFirst(t)
  {
    AppendExtendsSpool(s, e, t);
    AppendExtendsPipe(s, e, t);
    AppendExtendsWire(s, e, t);
    AppendExtendsHandled(s, e, t);
  }

  lemma FreshLast(x: seq<Envelope>, hist: seq<Envelope>, e: Envelope, ids: set<string>, extra: set<string>)
    requires FromHistory(x, hist) && e.id !in Ids(hist) && e.id !in ids && extra <= {e.id}
    ensures Only(x, ids + extra) == Only(x, ids)
    ensures Only(x + [e], ids + extra) == Only(x, ids) + (if extra == {} then [] else [e])
  {
    OnlyCongruent(x, ids + extra, ids);
    OnlyConcat(x, [e], ids + extra);
    if extra != {} {
      assert extra == {e.id};
    }
  }

  lemma VisibleInHistory(s: State)
    requires Shape(s)
    ensures FromHistory(Visible(s.store), s.hist) && Distinct(Visible(s.store))
    ensures Ids(Visible(s.store)) !! s.lost
  {
    VisibleMember(s.store);
    VisibleDistinct(s.store);
  }

  lemma FlushVisible(store: seq<Entry>)
    requires Unique(store)
    ensures Visible(Flush(store)) == Visible(store)
    ensures forall x :: x in Flush(store) ==> x.presence == Kept && x.event in Visible(store)
    ensures forall e :: e in Visible(store) ==> Entry(e, Kept) in Flush(store)
  {
    VisibleMember(store);
    RewriteSpec(store, Removed(store), {}, true);
    var ids := StoreIds(store) - Removed(store);
    forall x | x in store && x.event.id in ids
      ensures !x.presence.Doomed?
    {
    }
    RewriteVisible(store, Removed(store), {}, true, ids);
    VisibleMember(Flush(store));
    OneEntryPerId(store);
    OnlyAll(Visible(store), ids);
    OnlyAll(Visible(Flush(store)), ids);
  }

  lemma {:induction false} OneEntryPerId(store: seq<Entry>)
    requires Unique(store)
    ensures forall x, y :: x in store && y in store && x.event.id == y.event.id ==> x == y
  {
    if store != [] {
      OneEntryPerId(store[1..]);
      assert forall x :: x in store <==> x == store[0] || x in store[1..];
    }
  }

  /** The spool after a successful append: everything settled, the event last. */
  lemma AppendDoneStore(store: seq<Entry>, e: Envelope)
    requires Unique(store) && forall x :: x in store ==> x.event.id != e.id
    ensures var next := Flush(store) + [Entry(e, Kept)];
            && Unique(next) && Visible(next) == Visible(store) + [e]
            && (forall x :: x in next ==> x.presence == Kept && (x.event == e || exists y :: y in store && y.event == x.event))
            && (forall x :: x in store && x.presence == Kept ==> x in next)
            && Entry(e, Kept) in next
  {
    var flushed := Flush(store);
    FlushVisible(store);
    VisibleMember(store);
    VisibleConcat(flushed, [Entry(e, Kept)]);
    RewriteUnique(store, Removed(store), {}, true);
    assert flushed + [] == flushed;
    UniqueInsert(flushed, Entry(e, Kept), []);
    assert flushed + [Entry(e, Kept)] + [] == flushed + [Entry(e, Kept)];
    forall x | x in store && x.presence == Kept
      ensures x in flushed
    {
      assert x.event in Visible(store);
    }
  }

  lemma KeptStay(s: State, t: State)
    requires NothingLost(s) && t.log == s.log
    requires forall x :: x in s.store && x.presence == Kept ==> x in t.store
    requires forall id :: id in t.confirmed ==>
               id in s.confirmed || exists x :: x in t.store && x.event.id == id && x.presence == Kept
    ensures NothingLost(t)
  {
  }

  lemma AppendDoneKeeps(s: State, e: Envelope)
    requires Inv(s) && Enabled(s, AppendDone(e))
    ensures Inv(After(s, AppendDone(e)))
  {
    var t := After(s, AppendDone(e));
    AppendDoneStore(s.store, e);
    HistoryGrows(s, e, t);
    AppendSets(s, e, t);
    AppendExtends(s, e, t);
    KeptStay(s, t);
  }

  /** The part of Shape that concerns history under an append. */
  lemma HistoryGrows(s: State, e: Envelope, t: State)
    requires Shape(s) && e.id !in Ids(s.hist) && t.hist == s.hist + [e]
    requires t == s.(store := t.store, hist := t.hist, confirmed := t.confirmed)
    requires Unique(t.store)
    requires forall x :: x in t.store ==> x.event == e || exists y :: y in s.store && y.event == x.event
    requires forall x :: x in t.store && x.presence.Doomed? ==> x in s.store
    ensures Shape(t)
  {
    assert forall o :: o in s.hist ==> o in t.hist;
    assert Ids(s.hist) <= Ids(t.hist);
    assert e.id !in s.lost;
  }

  lemma {:induction false} AppendInterruptedStore(store: seq<Entry>, e: Envelope, at: nat)
    requires Unique(store) && forall x :: x in store ==> x.event.id != e.id
    requires at <= |store| && forall i :: at <= i < |store| ==> store[i].presence.Doomed?
    ensures var next := store[..at] + [Entry(e, Unsynced)] + store[at..];
            && Unique(next) && Visible(next) == Visible(store) + [e]
            && (forall x :: x in next <==> x == Entry(e, Unsynced) || x in store)
  {
    var front, back := store[..at], store[at..];
    assert store == front + back;
    VisibleNone(back);
    VisibleConcat(front, back);
    VisibleConcat(front + [Entry(e, Unsynced)], back);
    VisibleConcat(front, [Entry(e, Unsynced)]);
    UniqueInsert(front, Entry(e, Unsynced), back);
  }

  lemma AppendInterruptedKeeps(s: State, e: Envelope, at: nat)
    requires Inv(s) && Enabled(s, AppendInterrupted(e, at))
    ensures Inv(After(s, AppendInterrupted(e, at)))
  {
    var t := After(s, AppendInterrupted(e, at));
    AppendInterruptedStore(s.store, e, at);
    HistoryGrows(s, e, t);
    AppendSets(s, e, t);
    AppendExtends(s, e, t);
    KeptStay(s, t);
  }

  // ---- worker session ------------------------------------------------------

  lemma ConnectKeeps(s: State)
    requires Inv(s) && Enabled(s, Connect)
    ensures Inv(After(s, Connect))
  {
    var t := After(s, Connect);
    assert Owed(t) == Owed(s) && Alive(t) == Alive(s);
    assert Owed(t) - t.sent - Ids(t.batch) == Owed(t);
  }

  /** Taking a snapshot of the spool moves nothing. */
  lemma PipeSnapshot(up: seq<Envelope>, visible: seq<Envelope>, owed: set<string>, sent: set<string>)
    ensures Only(up, owed) + Only(visible, owed - sent) + Only(visible, owed - sent - Ids(visible))
         == Only(up, owed) + Only([], owed - sent) + Only(visible, owed - sent - Ids([]))
  {
    OnlyNone(visible, owed - sent - Ids(visible));
    assert owed - sent - Ids([]) == owed - sent;
  }

  lemma StartBatchKeeps(s: State)
    requires Inv(s) && Enabled(s, StartBatch)
    ensures Inv(After(s, StartBatch))
  {
    VisibleInHistory(s);
    PipeSnapshot(s.up, Visible(s.store), Owed(s), s.sent);
  }

  /** Sending the next event of the batch moves it from the batch to the wire. */
  lemma PipeSend(up: seq<Envelope>, e: Envelope, rest: seq<Envelope>, visible: seq<Envelope>,
                 owed: set<string>, sent: set<string>)
    requires e.id !in Ids(rest) && e.id !in sent
    ensures Only(up + [e], owed) + Only(rest, owed - (sent + {e.id})) + Only(visible, owed - (sent + {e.id}) - Ids(rest))
         == Only(up, owed) + Only([e] + rest, owed - sent) + Only(visible, owed - sent - Ids([e] + rest))
  {
    IdsSplit([e], rest);
    assert Ids([e]) == {e.id};
    assert owed - (sent + {e.id}) - Ids(rest) == owed - sent - Ids([e] + rest);
    OnlyConcat([e], rest, owed - sent);
    OnlyConcat(up, [e], owed);
    OnlyCongruent(rest, owed - (sent + {e.id}), owed - sent);
    OnlyCongruent([e], owed, owed - sent);
  }

  /** Skipping an event that was sent before takes nothing out of the pipe. */
  lemma PipeSkip(e: Envelope, rest: seq<Envelope>, owed: set<string>, sent: set<string>)
    requires e.id in sent
    ensures Only([e] + rest, owed - sent) == Only(rest, owed - sent)
    ensures owed - sent - Ids([e] + rest) == owed - sent - Ids(rest)
  {
    IdsSplit([e], rest);
    assert Ids([e]) == {e.id};
    OnlyFirst(e, rest, owed - sent);
  }

  lemma SendNextShape(s: State)
    requires Shape(s) && Enabled(s, SendNext)
    ensures Shape(After(s, SendNext))
    ensures s.batch[0].id !in Ids(s.batch[1..]) && s.batch[0].id !in s.lost
  {
    assert s.batch[0] in s.batch;
    assert forall o :: o in s.batch[1..] ==> o in s.batch;
  }

  lemma SendNextKeeps(s: State)
    requires Inv(s) && Enabled(s, SendNext)
    ensures Inv(After(s, SendNext))
  {
    var t := After(s, SendNext);
    var e := s.batch[0];
    SendNextShape(s);
    assert s.batch == [e] + s.batch[1..];
    assert Owed(t) == Owed(s);
    SendNextPipe(s, t);
    if s.hubUp && e.id !in s.sent {
      SendNextAlive(s, t, e);
      PipeGivesWire(t);
    }
  }

  lemma SendNextAlive(s: State, t: State, e: Envelope)
    requires t.up == s.up + [e] && t.hist == s.hist && t.log == s.log && t.lost == s.lost && e.id !in s.lost
    ensures Alive(t) == Alive(s)
  {
    IdsSplit(s.up, [e]);
    assert Ids([e]) == {e.id};
  }

  lemma SendNextPipe(s: State, t: State)
    requires PipeHoldsOwed(s) && Enabled(s, SendNext) && Distinct(s.batch) && Ids(s.batch) !! s.lost
    requires t == After(s, SendNext) && Owed(t) == Owed(s)
    ensures PipeHoldsOwed(t)
  {
    var e := s.batch[0];
    assert s.batch == [e] + s.batch[1..];
    assert e.id in Ids(s.batch);
    if e.id in s.sent {
      PipeSkip(e, s.batch[1..], Owed(s), s.sent);
    } else if s.workerUp && s.hubUp {
      PipeSend(s.up, e, s.batch[1..], Visible(s.store), Owed(s), s.sent);
      IdsSplit(s.up, [e]);
    }
  }

  /** With both ends up nothing lost is on the wire, so the pipe equation orders the wire. */
  lemma PipeGivesWire(t: State)
    requires t.workerUp && t.hubUp && PipeHoldsOwed(t)
    ensures WireInOrder(t)
  {
    assert Alive(t) == Owed(t);
  }

  /** Removing handled events from the spool touches nothing that is owed. */
  lemma SpoolTrimmed(s: State, t: State, drop: set<string>, doom: set<string>, settle: bool)
    requires Shape(s) && NothingLost(s)
    requires t.store == Rewrite(s.store, drop, doom, settle)
    requires drop + doom <= Ids(s.log)
    requires t.hist == s.hist && t.log == s.log && t.lost == s.lost && t.confirmed == s.confirmed
    ensures Only(Visible(t.store), Owed(t)) == Only(Visible(s.store), Owed(s))
    ensures Only(Visible(t.store), Owed(t) - s.sent - Ids(s.batch)) == Only(Visible(s.store), Owed(s) - s.sent - Ids(s.batch))
    ensures NothingLost(t)
    ensures Unique(t.store)
    ensures forall x :: x in t.store ==> x.event in t.hist && x.event.id !in t.lost
    ensures forall x :: x in t.store && x.presence.Doomed? ==> x.event.id in Ids(t.log)
  {
    RewriteVisible(s.store, drop, doom, settle, Owed(s));
    RewriteVisible(s.store, drop, doom, settle, Owed(s) - s.sent - Ids(s.batch));
    RewriteUnique(s.store, drop, doom, settle);
    RewriteSpec(s.store, drop, doom, settle);
    forall id | id in t.confirmed && id !in Ids(t.log)
      ensures exists x :: x in t.store && x.event.id == id && x.presence == Kept
    {
      var x :| x in s.store && x.event.id == id && x.presence == Kept;
      assert x.(presence := Fate(x, doom, settle)) in t.store;
    }
  }

  /** What acknowledging the event does to the worker, apart from its spool. */
  lemma ReceiveAckSession(s: State, t: State)
    requires Shape(s) && s.workerUp && s.down != []
    requires t == s.(down := s.down[1..], sent := s.sent - {s.down[0]}, store := t.store)
          || t == CloseWorker(s).(store := t.store)
    requires Unique(t.store)
    requires forall x :: x in t.store ==> x.event in s.hist && x.event.id !in s.lost
    requires forall x :: x in t.store && x.presence.Doomed? ==> x.event.id in Ids(s.log)
    ensures Shape(t)
  {
    assert forall o :: o in s.down[1..] ==> o in s.down;
  }

  lemma ReceiveAckShape(s: State, synced: bool)
    requires Shape(s) && NothingLost(s) && Enabled(s, ReceiveAck(synced))
    ensures var t := After(s, ReceiveAck(synced));
            Shape(t) && NothingLost(t)
            && Only(Visible(t.store), Owed(s)) == Only(Visible(s.store), Owed(s))
            && Only(Visible(t.store), Owed(s) - s.sent - Ids(s.batch)) == Only(Visible(s.store), Owed(s) - s.sent - Ids(s.batch))
  {
    var t := After(s, ReceiveAck(synced));
    var id := s.down[0];
    assert id in s.down;
    if id in Ids(Visible(s.store)) {
      if synced {
        SpoolTrimmed(s, t, Removed(s.store) + {id}, {}, true);
      } else {
        SpoolTrimmed(s, t, {}, {id}, false);
      }
    }
    ReceiveAckSession(s, t);
  }

  lemma ReceiveAckKeeps(s: State, synced: bool)
    requires Inv(s) && Enabled(s, ReceiveAck(synced))
    ensures Inv(After(s, ReceiveAck(synced)))
  {
    var id := s.down[0];
    assert id in s.down;
    ReceiveAckShape(s, synced);
    assert id !in Owed(s);
    assert Owed(s) - (s.sent - {id}) == Owed(s) - s.sent;
    assert Owed(s) - (s.sent - {id}) - Ids(s.batch) == Owed(s) - s.sent - Ids(s.batch);
  }

  lemma WorkerCloseKeeps(s: State)
    requires Inv(s) && Enabled(s, WorkerClose)
    ensures Inv(After(s, WorkerClose))
  {
    var t := After(s, WorkerClose);
    assert Owed(t) == Owed(s) && Alive(t) == Alive(s);
  }

  lemma CrashShape(s: State, keep: set<string>)
    requires Shape(s)
    ensures Shape(After(s, WorkerCrash(keep)))
  {
    var drop := Vanishing(s.store, keep) + (Removed(s.store) - keep);
    RewriteSpec(s.store, drop, {}, true);
    RewriteUnique(s.store, drop, {}, true);
  }

  lemma CrashKeepsDurable(store: seq<Entry>, keep: set<string>)
    requires Unique(store)
    ensures forall x :: x in store && x.presence == Kept ==> x in Recover(store, keep)
  {
    var drop := Vanishing(store, keep) + (Removed(store) - keep);
    RewriteSpec(store, drop, {}, true);
    OneEntryPerId(store);
    forall x | x in store && x.presence == Kept
      ensures x in Recover(store, keep)
    {
      assert x.(presence := Kept) == x;
    }
  }

  lemma CrashKeepsOwed(s: State, keep: set<string>)
    requires Shape(s)
    ensures var t := After(s, WorkerCrash(keep));
            Only(Visible(t.store), Owed(t)) == Only(Visible(s.store), Owed(t))
  {
    var t := After(s, WorkerCrash(keep));
    var drop := Vanishing(s.store, keep) + (Removed(s.store) - keep);
    forall x | x in s.store && x.event.id in Owed(t)
      ensures !x.presence.Doomed? && x.event.id !in drop
    {
      OneEntryPerId(s.store);
    }
    RewriteVisible(s.store, drop, {}, true, Owed(t));
  }

  lemma WorkerCrashKeeps(s: State, keep: set<string>)
    requires Inv(s)
    ensures Inv(After(s, WorkerCrash(keep)))
  {
    var t := After(s, WorkerCrash(keep));
    CrashShape(s, keep);
    CrashKeepsDurable(s.store, keep);
    CrashKeepsOwed(s, keep);
    Restrict(Visible(s.store), Owed(s), Owed(t));
    Restrict(s.hist, Owed(s), Owed(t));
    AliveShrinks(s, t);
  }

  /** The two order properties survive a loss of outstanding events that are not on the wire. */
  lemma AliveShrinks(s: State, t: State)
    requires WireInOrder(s) && HandledFirst(s)
    requires t.hist == s.hist && t.log == s.log && Alive(t) <= Alive(s)
    requires t.up == s.up || t.up == []
    ensures WireInOrder(t) && HandledFirst(t)
  {
    Restrict(s.hist, Alive(s), Alive(t));
    RestrictPrefix(Only(s.up, Alive(s)), Only(s.hist, Alive(s)), Alive(t));
    Restrict(s.up, Alive(s), Alive(t));
    var all, fewer := Alive(s) + Ids(s.log), Alive(t) + Ids(s.log);
    Restrict(s.hist, all, fewer);
    OnlyConcat(s.log, Only(s.hist, Alive(s)), fewer);
    OnlyAll(s.log, fewer);
    OnlyTwice(s.hist, Alive(s), fewer);
    assert Alive(s) * fewer == Alive(t);
  }

  // ---- hub -----------------------------------------------------------------

  lemma HubCloseKeeps(s: State)
    requires Inv(s) && s.hubUp
    ensures Inv(CloseHub(s))
  {
    var t := CloseHub(s);
    assert Owed(t) == Owed(s);
    assert Alive(t) <= Alive(s);
    AliveShrinks(s, t);
  }

  lemma HubAckKeeps(s: State)
    requires Inv(s) && Enabled(s, HubAck)
    ensures Inv(After(s, HubAck))
  {
    var t := After(s, HubAck);
    assert Owed(t) == Owed(s) && Alive(t) == Alive(s);
  }

  /** An envelope that is not outstanding leaves the wire without consequence. */
  lemma SkipHead(s: State, t: State)
    requires FromHistory(s.up, s.hist) && s.hubUp && s.up != []
    requires s.up[0].id !in Relevant(s.hist) || s.up[0].id in Ids(s.log)
    requires t.hist == s.hist && t.log == s.log && t.lost == s.lost && t.up == s.up[1..]
    ensures Owed(t) == Owed(s) && Alive(t) == Alive(s)
    ensures Only(t.up, Owed(t)) == Only(s.up, Owed(s))
    ensures Only(t.up, Alive(t)) == Only(s.up, Alive(s))
    ensures Ids(t.up) <= Ids(s.up) && FromHistory(t.up, t.hist)
  {
    assert s.up == [s.up[0]] + t.up;
    assert Ids(s.up) == {s.up[0].id} + Ids(t.up);
    assert forall o :: o in t.up ==> o in s.up;
    assert Alive(t) == Alive(s);
  }

  lemma HistoryById(hist: seq<Envelope>, a: Envelope, b: Envelope)
    requires Distinct(hist) && a in hist && b in hist && a.id == b.id
    ensures a == b
  {
  }

  lemma IgnoredIsIrrelevant(hist: seq<Envelope>, e: Envelope)
    requires Distinct(hist) && e in hist
    ensures e.id in Relevant(hist) <==> HubVerdict(e) != Ignore
  {
    if e.id in Relevant(hist) {
      var o :| o in hist && HubVerdict(o) != Ignore && o.id == e.id;
      HistoryById(hist, o, e);
    }
  }

  /** The first outstanding event leaves the front of the outstanding sequence. */
  lemma DropFirst(hist: seq<Envelope>, ids: set<string>, e: Envelope)
    requires Distinct(hist) && Only(hist, ids) != [] && Only(hist, ids)[0] == e
    ensures Only(hist, ids - {e.id}) == Only(hist, ids)[1..]
  {
    var all := Only(hist, ids);
    OnlyDistinct(hist, ids);
    forall o | o in all[1..]
      ensures o.id in ids - {e.id}
    {
      OnlyMember(hist, ids, o);
    }
    Restrict(hist, ids, ids - {e.id});
    assert all == [e] + all[1..];
    OnlyConcat([e], all[1..], ids - {e.id});
    OnlyAll(all[1..], ids - {e.id});
  }

  /** The same for a sequence that starts like it. */
  lemma DropFirstPrefix(hist: seq<Envelope>, ids: set<string>, e: Envelope, up: seq<Envelope>)
    requires Distinct(hist) && e.id in ids && Only([e] + up, ids) <= Only(hist, ids)
    ensures Only(hist, ids) == [e] + Only(hist, ids - {e.id})
    ensures Only(up, ids - {e.id}) <= Only(hist, ids - {e.id})
  {
    OnlyConcat([e], up, ids);
    DropFirst(hist, ids, e);
    RestrictPrefix(Only([e] + up, ids), Only(hist, ids), ids - {e.id});
    Restrict([e] + up, ids, ids - {e.id});
    Restrict(hist, ids, ids - {e.id});
    OnlyConcat([e], up, ids - {e.id});
  }

  lemma TakeSets(s: State, t: State)
    requires Shape(s) && s.hubUp && s.up != []
    requires HubVerdict(s.up[0]) == Accept && s.up[0].id !in Ids(s.log)
    requires t == Handle(s, s.up[0])
    ensures s.up[0].id in Alive(s)
    ensures Ids(t.log) == Ids(s.log) + {s.up[0].id}
    ensures Owed(t) == Owed(s) - {s.up[0].id} && Alive(t) == Alive(s) - {s.up[0].id}
    ensures Alive(t) + Ids(t.log) == Alive(s) + Ids(s.log)
  {
    var e := s.up[0];
    assert e in s.up && e in s.hist;
    IgnoredIsIrrelevant(s.hist, e);
    assert s.up == [e] + t.up;
    IdsSplit([e], t.up);
    IdsSplit(s.log, [e]);
    assert Ids([e]) == {e.id};
  }

  lemma IdsSplit(a: seq<Envelope>, b: seq<Envelope>)
    ensures Ids(a + b) == Ids(a) + Ids(b)
  {
    assert forall e :: e in a + b <==> e in a || e in b;
  }

  lemma TakeFirst(s: State, t: State)
    requires Distinct(s.hist) && WireInOrder(s) && HandledFirst(s)
    requires s.up != [] && t.up == s.up[1..] && t.hist == s.hist && t.log == s.log + [s.up[0]]
    requires s.up[0].id in Alive(s) && Alive(t) == Alive(s) - {s.up[0].id}
    requires Alive(t) + Ids(t.log) == Alive(s) + Ids(s.log)
    ensures WireInOrder(t) && HandledFirst(t)
  {
    var e := s.up[0];
    assert s.up == [e] + t.up;
    DropFirstPrefix(s.hist, Alive(s), e, t.up);
  }

  /** What is left of the pipe when one event at its head stops being owed. */
  lemma PipeRestrict(up: seq<Envelope>, batch: seq<Envelope>, visible: seq<Envelope>, hist: seq<Envelope>,
                     owed: set<string>, sent: set<string>, id: string)
    requires up != [] && up[0].id == id
    requires Only(up, owed) + Only(batch, owed - sent) + Only(visible, owed - sent - Ids(batch)) == Only(hist, owed)
    ensures var left := owed - {id};
            Only(up[1..], left) + Only(batch, left - sent) + Only(visible, left - sent - Ids(batch)) == Only(hist, left)
  {
    var left := owed - {id};
    var visibleLeft := owed - sent - Ids(batch);
    RestrictThree(Only(up, owed), Only(batch, owed - sent), Only(visible, visibleLeft), left);
    Restrict(hist, owed, left);
    Restrict(up, owed, left);
    OnlyTwice(batch, owed - sent, left);
    OnlyTwice(visible, visibleLeft, left);
    assert (owed - sent) * left == left - sent;
    assert visibleLeft * left == left - sent - Ids(batch);
    assert Only(up, left) == Only(up[1..], left);
  }

  lemma RestrictThree(a: seq<Envelope>, b: seq<Envelope>, c: seq<Envelope>, ids: set<string>)
    ensures Only(a + b + c, ids) == Only(a, ids) + Only(b, ids) + Only(c, ids)
  {
    OnlyConcat(a + b, c, ids);
    OnlyConcat(a, b, ids);
  }

  /** Handling an owed event: the spool and the pipe still hold exactly what is left. */
  lemma OwedShrinks(s: State, t: State)
    requires SpoolHoldsOwed(s) && PipeHoldsOwed(s) && s.hubUp && s.up != []
    requires t == s.(log := t.log, ingested := t.ingested, ackDue := t.ackDue, up := s.up[1..])
    requires Owed(t) == Owed(s) - {s.up[0].id}
    ensures SpoolHoldsOwed(t) && PipeHoldsOwed(t)
  {
    Restrict(Visible(s.store), Owed(s), Owed(t));
    Restrict(s.hist, Owed(s), Owed(t));
    if s.workerUp {
      PipeRestrict(s.up, s.batch, Visible(s.store), s.hist, Owed(s), s.sent, s.up[0].id);
      assert forall o :: o in t.up ==> o in s.up;
      assert Ids(t.up) <= Ids(s.up);
    }
  }

  lemma HandleShape(s: State)
    requires Shape(s) && EffectsRecorded(s) && Enabled(s, HubTake) && HubVerdict(s.up[0]) == Accept
    ensures Shape(Handle(s, s.up[0])) && EffectsRecorded(Handle(s, s.up[0]))
  {
    var e := s.up[0];
    var t := Handle(s, e);
    assert e in s.up && e in s.hist;
    assert forall o :: o in t.up ==> o in s.up;
    if e.id in Ids(s.log) {
      var o :| o in s.log && o.id == e.id;
      HistoryById(s.hist, o, e);
    } else {
      assert e in t.log;
    }
    assert forall o :: o in s.log ==> o in t.log;
    assert Ids(s.log) <= Ids(t.log);
  }

  lemma HandleKeeps(s: State)
    requires Inv(s) && Enabled(s, HubTake) && HubVerdict(s.up[0]) == Accept
    ensures Inv(Handle(s, s.up[0]))
  {
    var t := Handle(s, s.up[0]);
    HandleShape(s);
    if s.up[0].id in Ids(s.log) {
      SkipHead(s, t);
    } else {
      TakeSets(s, t);
      TakeFirst(s, t);
      OwedShrinks(s, t);
    }
  }

  lemma HubTakeKeeps(s: State)
    requires Inv(s) && Enabled(s, HubTake)
    ensures Inv(After(s, HubTake))
  {
    var e := s.up[0];
    assert e in s.up && e in s.hist;
    match HubVerdict(e) {
      case Ignore =>
        IgnoredIsIrrelevant(s.hist, e);
        SkipHead(s, After(s, HubTake));
      case Reject => HubCloseKeeps(s);
      case Accept => HandleKeeps(s);
    }
  }

  // ---- which envelopes are handled, by their fields on the wire --------------

  /** A `message.new` with everything ingest needs. */
  predicate IsGoodMessage(e: Envelope) {
    && e.version == 1 && e.kind == "message.new" && e.status == "" && !e.hasError
    && e.payload.MessagePayload?
    && e.payload.message.providerMessageId != "" && e.payload.message.conversationId != ""
    && e.payload.message.sentAt != None
    && (e.payload.message.direction == "incoming" || e.payload.message.direction == "outgoing")
  }

  predicate IsGoodStatus(e: Envelope) {
    && e.version == 1 && e.kind == "account.status" && e.status == "" && !e.hasError
    && e.payload.StatusPayload?
    && (e.payload.state == "live" || e.payload.state == "unlinked" || e.payload.state == "linking"
        || e.payload.state == "upgrade_required")
  }

  /** Not an event: of another version, without a type, a heartbeat, a response, or a status that does not decode. */
  predicate IsNoEvent(e: Envelope) {
    || e.version != 1 || e.kind == "" || e.kind == "heartbeat" || e.status != "" || e.hasError
    || (e.kind == "account.status" && !e.payload.StatusPayload?)
  }

  /** What the hub does with the next envelope, exactly: it handles and will acknowledge good messages and
      statuses, skips what is no event, and ends the connection over everything else. */
  lemma HubTakesIff(s: State)
    requires Enabled(s, HubTake) && s.up[0].id != ""
    ensures var e, t := s.up[0], After(s, HubTake);
            && (t.ackDue == Some(e.id) <==> IsGoodMessage(e) || IsGoodStatus(e))
            && (t.ackDue == Some(e.id) ==>
                  && t.hubUp && t.up == s.up[1..] && e.id in Ids(t.log) && s.log <= t.log
                  && (IsGoodMessage(e) ==> t.ingested == s.ingested + [e.payload.message])
                  && (IsGoodStatus(e) ==> t.ingested == s.ingested))
            && (t == s.(up := s.up[1..]) <==> IsNoEvent(e))
            && (!t.hubUp <==> !IsGoodMessage(e) && !IsGoodStatus(e) && !IsNoEvent(e))
            && (e.id !in Ids(s.log) && t.ackDue == Some(e.id) ==> t.log == s.log + [e])
  {
    var e, t := s.up[0], After(s, HubTake);
    assert s.up == [e] + s.up[1..];
    if HubVerdict(e) == Accept {
      IdsSplit(s.log, [e]);
      assert e.id in Ids([e]);
    }
  }

  // ---- the theorems --------------------------------------------------------

  lemma StepKeeps(s: State, step: Step)
    requires Inv(s) && Enabled(s, step)
    ensures Inv(After(s, step))
  {
    match step {
      case AppendDone(e) => AppendDoneKeeps(s, e);
      case AppendInterrupted(e, at) => AppendInterruptedKeeps(s, e, at);
      case Connect => ConnectKeeps(s);
      case StartBatch => StartBatchKeeps(s);
      case SendNext => SendNextKeeps(s);
      case ReceiveAck(synced) => ReceiveAckKeeps(s, synced);
      case WorkerClose => WorkerCloseKeeps(s);
      case WorkerCrash(keep) => WorkerCrashKeeps(s, keep);
      case HubTake => HubTakeKeeps(s);
      case HubAck => HubAckKeeps(s);
      case HubClose => HubCloseKeeps(s);
    }
  }

  lemma {:induction false} RunKeepsInvariant(s: State, steps: seq<Step>, t: State)
    requires Inv(s) && Leads(s, steps, t)
    ensures Inv(t)
    decreases |steps|
  {
    if steps != [] {
      StepKeeps(s, steps[0]);
      RunKeepsInvariant(After(s, steps[0]), steps[1..], t);
    }
  }

  lemma Reached(steps: seq<Step>, s: State)
    requires Leads(INITIAL, steps, s)
    ensures Inv(s)
  {
    InitialHolds();
    RunKeepsInvariant(INITIAL, steps, s);
  }

  lemma InitialHolds()
    ensures Inv(INITIAL)
  {
  }

  lemma DurableOrHandled(s: State, e: Envelope)
    requires Inv(s) && e in s.hist && e.id in s.confirmed
    ensures (exists x :: x in s.store && x.event == e && x.presence == Kept)
         || (e in s.log && (e.payload.MessagePayload? ==> e.payload.message in s.ingested))
  {
    if e.id in Ids(s.log) {
      var o :| o in s.log && o.id == e.id;
      HistoryById(s.hist, o, e);
    } else {
      var x :| x in s.store && x.event.id == e.id && x.presence == Kept;
      HistoryById(s.hist, x.event, e);
    }
  }

  /** No loss: whatever disconnects, lost acknowledgements, crashes and restarts a run contains,
      an event whose append reported success is durable in the spool or has been handled, and a
      handled message has been committed by ingest. */
  lemma NoLoss(steps: seq<Step>, s: State, e: Envelope)
    requires Leads(INITIAL, steps, s)
    requires e in s.hist && e.id in s.confirmed
    ensures (exists x :: x in s.store && x.event == e && x.presence == Kept)
         || (e in s.log && (e.payload.MessagePayload? ==> e.payload.message in s.ingested))
  {
    Reached(steps, s);
    DurableOrHandled(s, e);
  }

  /** In-order first handling: the events handled so far are a prefix of the append order of the
      events that matter, those the hub skips and the appends a crash undid left out. */
  lemma HandledIsPrefix(steps: seq<Step>, s: State)
    requires Leads(INITIAL, steps, s)
    ensures s.log <= Only(s.hist, (Relevant(s.hist) - s.lost) + Ids(s.log))
  {
    Reached(steps, s);
    var all, fewer := Alive(s) + Ids(s.log), (Relevant(s.hist) - s.lost) + Ids(s.log);
    assert fewer <= all;
    Restrict(s.hist, all, fewer);
    OnlyConcat(s.log, Only(s.hist, Alive(s)), fewer);
    OnlyAll(s.log, fewer);
  }

  /** Consequence for two events: nothing the hub must handle is overtaken, and an event it rejects
      holds back everything appended after it. */
  lemma NoOvertaking(steps: seq<Step>, s: State, i: nat, j: nat)
    requires Leads(INITIAL, steps, s)
    requires i < j < |s.hist| && s.hist[j] in s.log
    requires s.hist[i].id in s.confirmed && HubVerdict(s.hist[i]) != Ignore
    ensures s.hist[i] in s.log && HubVerdict(s.hist[i]) == Accept
  {
    Reached(steps, s);
    var a := s.hist[i];
    assert a in s.hist && a.id in Relevant(s.hist);
    var ids := Alive(s) + Ids(s.log);
    assert a.id in ids by {
      if a.id !in Ids(s.log) {
        var x :| x in s.store && x.event.id == a.id && x.presence == Kept;
      }
    }
    BeforeInOnly(s.hist, ids, i, j);
    OnlyDistinct(s.hist, ids);
    var whole := Only(s.hist, ids);
    var p, q :| 0 <= p < q < |whole| && whole[p] == a && whole[q] == s.hist[j];
    var k :| 0 <= k < |s.log| && s.log[k] == s.hist[j];
    assert whole[k] == s.log[k];
    assert q == k;
    assert whole[p] == s.log[p];
  }

  lemma {:induction false} BeforeInOnly(s: seq<Envelope>, ids: set<string>, i: nat, j: nat)
    requires i < j < |s| && s[i].id in ids && s[j].id in ids
    ensures exists p, q :: 0 <= p < q < |Only(s, ids)| && Only(s, ids)[p] == s[i] && Only(s, ids)[q] == s[j]
  {
    var r := Only(s, ids);
    var rest := Only(s[1..], ids);
    if i == 0 {
      OnlyMember(s[1..], ids, s[j]);
      assert s[1..][j - 1] == s[j];
      var q :| 0 <= q < |rest| && rest[q] == s[j];
      assert r[0] == s[0] && r[q + 1] == s[j];
    } else {
      BeforeInOnly(s[1..], ids, i - 1, j - 1);
      var p, q :| 0 <= p < q < |rest| && rest[p] == s[i] && rest[q] == s[j];
      var d := if s[0].id in ids then 1 else 0;
      assert r[p + d] == s[i] && r[q + d] == s[j];
    }
  }
}

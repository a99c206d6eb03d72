/** From the worker's spool to the message tables: the delivery protocol with its hub running the
    ingest transaction on a database that every other transaction changes as well. */
module EndToEnd {
  import opened Prelude
  import opened Protocol
  import opened Tables
  import opened MessageOps
  import opened DbRuns
  import D = Delivery
  import ExactlyOnce

  /** `ops` are the transactions run so far, in order. */
  datatype State = State(wire: D.State, db: Db, ops: seq<DbOp>)

  datatype Step =
    | Wire(step: D.Step)  // anything but the hub taking an envelope
    | Take(draws: Draws)  // the hub takes one, and handles it if it is well formed
    | Transact(op: DbOp)  // any other transaction

  predicate IsMessage(e: Envelope) { D.HubVerdict(e).Accept? && e.payload.MessagePayload? }

  ghost predicate Enabled(s: State, step: Step) {
    match step
    case Wire(inner) => !inner.HubTake? && D.Enabled(s.wire, inner)
    case Take(_) => D.Enabled(s.wire, D.HubTake)
    case Transact(_) => true
  }

  /** A failed ingest ends the connection without an acknowledgement. */
  ghost function After(caller: Caller, s: State, step: Step): State
    requires Enabled(s, step)
  {
    match step
    case Wire(inner) => s.(wire := D.After(s.wire, inner))
    case Take(draws) =>
      var e := s.wire.up[0];
      if !IsMessage(e) then s.(wire := D.After(s.wire, D.HubTake))
      else
        var r := Ingest(s.db, caller, e.payload.message, true, draws);
        if r.IngestOk?
        then State(D.After(s.wire, D.HubTake), r.db, s.ops + [OpIngest(caller, e.payload.message, true, draws)])
        else s.(wire := D.After(s.wire, D.HubClose))
    case Transact(op) => s.(db := Exec(s.db, op), ops := s.ops + [op])
  }

  ghost predicate Leads(caller: Caller, s: State, steps: seq<Step>, t: State)
    decreases |steps|
  {
    if steps == [] then s == t
    else Enabled(s, steps[0]) && Leads(caller, After(caller, s, steps[0]), steps[1..], t)
  }

  /** The i-th transaction was a committed ingest of the message. */
  ghost predicate CommittedAt(caller: Caller, start: Db, ops: seq<DbOp>, i: nat, m: WireMessage) {
    && i < |ops| && ops[i].OpIngest? && ops[i].caller == caller && ops[i].message == m && ops[i].live
    && Ingest(ExecAll(start, ops[..i]), caller, m, true, ops[i].draws).IngestOk?
  }

  ghost predicate Committed(caller: Caller, start: Db, ops: seq<DbOp>, m: WireMessage) {
    exists i: nat :: CommittedAt(caller, start, ops, i, m)
  }

  ghost predicate Inv(caller: Caller, start: Db, s: State) {
    D.Inv(s.wire) && Booked(caller, start, s)
  }

  lemma CommittedStays(caller: Caller, start: Db, ops: seq<DbOp>, op: DbOp, m: WireMessage)
    requires Committed(caller, start, ops, m)
    ensures Committed(caller, start, ops + [op], m)
  {
    var i: nat :| CommittedAt(caller, start, ops, i, m);
    assert (ops + [op])[..i] == ops[..i];
    assert CommittedAt(caller, start, ops + [op], i, m);
  }

  lemma OneMore(start: Db, ops: seq<DbOp>, op: DbOp)
    ensures ExecAll(start, ops + [op]) == Exec(ExecAll(start, ops), op)
  {
    ExecAllConcat(start, ops, [op]);
    var db := ExecAll(start, ops);
    assert [op][1..] == [];
    assert ExecAll(db, [op]) == ExecAll(Exec(db, op), []);
  }

  lemma IngestedOnlyByTake(s: D.State, step: D.Step)
    requires D.Enabled(s, step) && !step.HubTake?
    ensures D.After(s, step).ingested == s.ingested
  {
  }

  /** The database's part of the invariant. */
  ghost predicate Booked(caller: Caller, start: Db, s: State) {
    s.db == ExecAll(start, s.ops) && forall m :: m in s.wire.ingested ==> Committed(caller, start, s.ops, m)
  }

  lemma OneMoreBooked(caller: Caller, start: Db, s: State, t: State, op: DbOp)
    requires Booked(caller, start, s) && t.ops == s.ops + [op] && t.db == Exec(s.db, op)
    requires forall m :: m in t.wire.ingested ==> m in s.wire.ingested || Committed(caller, start, t.ops, m)
    ensures Booked(caller, start, t)
  {
    OneMore(start, s.ops, op);
    forall m | m in t.wire.ingested
      ensures Committed(caller, start, t.ops, m)
    {
      if m in s.wire.ingested {
        CommittedStays(caller, start, s.ops, op, m);
      }
    }
  }

  lemma TakeBooks(caller: Caller, start: Db, s: State, draws: Draws)
    requires Booked(caller, start, s) && Enabled(s, Take(draws))
    ensures Booked(caller, start, After(caller, s, Take(draws)))
  {
    var e := s.wire.up[0];
    if IsMessage(e) && Ingest(s.db, caller, e.payload.message, true, draws).IngestOk? {
      var m := e.payload.message;
      var op := OpIngest(caller, m, true, draws);
      assert (s.ops + [op])[..|s.ops|] == s.ops;
      assert CommittedAt(caller, start, s.ops + [op], |s.ops|, m);
      OneMoreBooked(caller, start, s, After(caller, s, Take(draws)), op);
    }
  }

  lemma TakeKeeps(caller: Caller, start: Db, s: State, draws: Draws)
    requires Inv(caller, start, s) && Enabled(s, Take(draws))
    ensures Inv(caller, start, After(caller, s, Take(draws)))
  {
    TakeBooks(caller, start, s, draws);
    TakeWire(caller, s, draws);
    if After(caller, s, Take(draws)).wire == D.After(s.wire, D.HubTake) {
      D.StepKeeps(s.wire, D.HubTake);
    } else {
      D.StepKeeps(s.wire, D.HubClose);
    }
  }

  /** The connection takes the envelope or ends. */
  lemma TakeWire(caller: Caller, s: State, draws: Draws)
    requires Enabled(s, Take(draws))
    ensures D.Enabled(s.wire, D.HubClose)
    ensures After(caller, s, Take(draws)).wire == D.After(s.wire, D.HubTake)
         || After(caller, s, Take(draws)).wire == D.After(s.wire, D.HubClose)
  {
  }

  lemma {:induction false} StepKeeps(caller: Caller, start: Db, s: State, step: Step)
    requires Inv(caller, start, s) && Enabled(s, step)
    ensures Inv(caller, start, After(caller, s, step))
  {
    match step {
      case Wire(inner) =>
        D.StepKeeps(s.wire, inner);
        IngestedOnlyByTake(s.wire, inner);
      case Take(draws) => TakeKeeps(caller, start, s, draws);
      case Transact(op) =>
        OneMoreBooked(caller, start, s, After(caller, s, step), op);
    }
  }

  lemma {:induction false} RunKeeps(caller: Caller, start: Db, s: State, steps: seq<Step>, t: State)
    requires Inv(caller, start, s) && Leads(caller, s, steps, t)
    ensures Inv(caller, start, t)
    decreases |steps|
  {
    if steps != [] {
      StepKeeps(caller, start, s, steps[0]);
      RunKeeps(caller, start, After(caller, s, steps[0]), steps[1..], t);
    }
  }

  /** The conversation and message ids a provider message is filed under. */
  ghost predicate Filed(db: Db, account: string, m: WireMessage) {
    exists c, id :: IsConversation(db, c, account, m.conversationId) && IsRow(db, id, c, m.providerMessageId)
  }

  /** At least once in transport, exactly once in effect: in every run with crashes, disconnects,
      restarts, failed and concurrent transactions, a message whose append was confirmed is still
      durable in the spool or was committed by a transaction that left it a row; and over all those
      transactions each row key was announced at most once more often than it was deleted. */
  lemma SpoolToTables(caller: Caller, start: Db, steps: seq<Step>, s: State, e: Envelope)
    requires Schema(start) && Leads(caller, State(D.INITIAL, start, []), steps, s)
    requires e in s.wire.hist && e.id in s.wire.confirmed && e.payload.MessagePayload?
    ensures (exists x :: x in s.wire.store && x.event == e && x.presence == D.Kept)
         || exists i: nat :: CommittedAt(caller, start, s.ops, i, e.payload.message)
                        && Filed(ExecAll(start, s.ops[..i + 1]), caller.account, e.payload.message)
    ensures s.db == ExecAll(start, s.ops) && Schema(s.db)
    ensures forall c, p :: ExactlyOnce.TotalAnnouncements(start, s.ops, c, p)
                           <= 1 + ExactlyOnce.TotalDeletions(start, s.ops, c, p)
  {
    InitialInv(caller, start);
    RunKeeps(caller, start, State(D.INITIAL, start, []), steps, s);
    ExecAllSchema(start, s.ops);
    forall c, p
      ensures ExactlyOnce.TotalAnnouncements(start, s.ops, c, p) <= 1 + ExactlyOnce.TotalDeletions(start, s.ops, c, p)
    {
      ExactlyOnce.AnnouncedAtMostOnce(start, s.ops, c, p);
    }
    D.DurableOrHandled(s.wire, e);
    if e in s.wire.log {
      var i: nat :| CommittedAt(caller, start, s.ops, i, e.payload.message);
      CommitFiles(caller, start, s.ops, i, e.payload.message);
    }
  }

  lemma InitialInv(caller: Caller, start: Db)
    ensures Inv(caller, start, State(D.INITIAL, start, []))
  {
    D.InitialHolds();
  }

  lemma CommitFiles(caller: Caller, start: Db, ops: seq<DbOp>, i: nat, m: WireMessage)
    requires Schema(start) && CommittedAt(caller, start, ops, i, m)
    ensures Filed(ExecAll(start, ops[..i + 1]), caller.account, m)
  {
    var before := ExecAll(start, ops[..i]);
    ExecAllSchema(start, ops[..i]);
    ExactlyOnce.IngestLeavesRow(before, caller, m, true, ops[i].draws);
    assert ops[..i + 1] == ops[..i] + [ops[i]];
    OneMore(start, ops[..i], ops[i]);
  }
}

/** The whole inbound path: the worker's real directory, the delivery protocol, the message tables with
    all their transactions, and the drainer of the realtime outbox, in one transition system. */
module Gateway {
  import opened Prelude
  import opened Protocol
  import opened Tables
  import opened MessageOps
  import opened DbRuns
  import opened Directory
  import opened EventSpool
  import D = Delivery
  import S = SpoolRuns
  import E = EndToEnd
  import O = Outbox
  import ExactlyOnce

  /** The spool directory, the path through protocol and tables, and the drainer. */
  datatype State = State(fs: Fs, path: E.State, outbox: O.State)

  datatype Step =
    | Spool(inner: S.Step)  // worker, connection and crashes; anything but the hub taking an envelope
    | Take(draws: Draws)    // the hub takes one
    | Transact(op: DbOp)    // any other transaction, but the drainer's
    | Drain(drain: O.Step)  // the drainer: begin, publish, mark, finish, stop

  ghost function Initial(start: Db): State {
    State(Fs(map[], []), E.State(D.INITIAL, start, []), O.State(map[], O.Idle, [], map[], 0, multiset{}))
  }

  function Spooled(s: State): S.State { S.State(s.fs, s.path.wire) }

  /** The outbox id a transaction draws for its notice. */
  function Drawn(op: DbOp): Option<nat> {
    match op
    case OpIngest(_, _, live, draws) => if live then Some(draws.outbox) else None
    case OpComplete(_, _, _, _, outbox) => Some(outbox)
    case OpFail(_, _, _, outbox) => Some(outbox)
    case _ => None
  }

  predicate Draining(step: O.Step) { !step.Commit? && !step.Prune? }

  /** The database never issues an outbox id twice. */
  ghost predicate Enabled(s: State, step: Step) {
    match step
    case Spool(inner) => S.Enabled(Spooled(s), inner) && inner != S.Other(D.HubTake)
    case Take(draws) => D.Enabled(s.path.wire, D.HubTake) && draws.outbox !in s.outbox.committed
    case Transact(op) => !op.OpDelivered? && (Drawn(op).Some? ==> Drawn(op).value !in s.outbox.committed)
    case Drain(inner) => Draining(inner) && O.Enabled(s.outbox, inner)
  }

  /** The ingest the hub commits for the envelope it takes, if it does. */
  ghost function Ingestion(caller: Caller, s: State, draws: Draws): Option<DbOp>
    requires s.path.wire.up != []
  {
    var e := s.path.wire.up[0];
    if E.IsMessage(e) && Ingest(s.path.db, caller, e.payload.message, true, draws).IngestOk?
    then Some(OpIngest(caller, e.payload.message, true, draws)) else None
  }

  /** What a transaction does to the outbox. */
  ghost function OutboxStep(db: Db, op: DbOp): Option<O.Step> {
    var after := Exec(db, op).outbox;
    if op.OpPruneOutbox? then Some(O.Prune(op.before))
    else if Drawn(op).Some? && Drawn(op).value in after && Drawn(op).value !in db.outbox
    then Some(O.Commit(Drawn(op).value, after[Drawn(op).value]))
    else None
  }

  ghost function Followed(o: O.State, db: Db, op: DbOp): O.State {
    var step := OutboxStep(db, op);
    if step.Some? && O.Enabled(o, step.value) then O.After(o, step.value) else o
  }

  /** The transaction the drainer runs, if any. */
  function MarkOp(o: O.State, step: O.Step): Option<DbOp>
    requires step.MarkNext? ==> o.progress.Draining? && o.progress.k < |o.progress.batch|
  {
    if step.MarkNext? then Some(OpDelivered(o.progress.batch[o.progress.k].id, step.now)) else None
  }

  ghost function Transacted(path: E.State, op: Option<DbOp>): E.State {
    if op.Some? then path.(db := Exec(path.db, op.value), ops := path.ops + [op.value]) else path
  }

  ghost function After(caller: Caller, s: State, step: Step): State
    requires Enabled(s, step)
  {
    match step
    case Spool(inner) =>
      var t := S.After(Spooled(s), inner);
      State(t.fs, s.path.(wire := t.wire), s.outbox)
    case Take(draws) =>
      var op := Ingestion(caller, s, draws);
      State(s.fs, E.After(caller, s.path, E.Take(draws)),
            if op.Some? then Followed(s.outbox, s.path.db, op.value) else s.outbox)
    case Transact(op) => State(s.fs, Transacted(s.path, Some(op)), Followed(s.outbox, s.path.db, op))
    case Drain(inner) => State(s.fs, Transacted(s.path, MarkOp(s.outbox, inner)), O.After(s.outbox, inner))
  }

  ghost predicate Leads(caller: Caller, s: State, steps: seq<Step>, t: State)
    decreases |steps|
  {
    if steps == [] then s == t
    else Enabled(s, steps[0]) && Leads(caller, After(caller, s, steps[0]), steps[1..], t)
  }

  // ---- the outbox keeps up with the table ------------------------------------------

  /** A transaction other than a mark adds the notice it drew, prunes, or leaves the outbox alone. */
  ghost predicate OneNotice(db: Db, op: DbOp) {
    var after := Exec(db, op).outbox;
    if op.OpPruneOutbox? then after == O.Trimmed(db.outbox, op.before)
    else
      || after == db.outbox
      || (&& Drawn(op).Some? && Drawn(op).value !in db.outbox && Drawn(op).value in after
          && after == db.outbox[Drawn(op).value := after[Drawn(op).value]]
          && after[Drawn(op).value].deliveredAt.None?)
  }

  lemma IngestNotice(db: Db, op: DbOp)
    requires op.OpIngest?
    ensures OneNotice(db, op)
  {
  }

  lemma CompleteNotice(db: Db, op: DbOp)
    requires op.OpComplete?
    ensures OneNotice(db, op)
  {
  }

  lemma FailNotice(db: Db, op: DbOp)
    requires op.OpFail?
    ensures OneNotice(db, op)
  {
  }

  lemma OtherNotice(db: Db, op: DbOp)
    requires !op.OpIngest? && !op.OpComplete? && !op.OpFail? && !op.OpDelivered?
    ensures OneNotice(db, op)
  {
  }

  lemma TransactionNotice(db: Db, op: DbOp)
    requires !op.OpDelivered?
    ensures OneNotice(db, op)
  {
    match op {
      case OpIngest(_, _, _, _) => IngestNotice(db, op);
      case OpComplete(_, _, _, _, _) => CompleteNotice(db, op);
      case OpFail(_, _, _, _) => FailNotice(db, op);
      case _ => OtherNotice(db, op);
    }
  }

  lemma FollowedTable(o: O.State, db: Db, op: DbOp)
    requires OneNotice(db, op) && o.table == db.outbox && O.Inv(o)
    requires Drawn(op).Some? ==> Drawn(op).value !in o.committed
    ensures Followed(o, db, op).table == Exec(db, op).outbox && O.Inv(Followed(o, db, op))
  {
    var step := OutboxStep(db, op);
    if step.Some? {
      O.StepKeeps(o, step.value);
    }
  }

  // ---- every announcing ingest is on record --------------------------------------------

  /** The i-th transaction was a live ingest that inserted its message. */
  ghost predicate InsertedAt(start: Db, ops: seq<DbOp>, i: nat) {
    i < |ops| && ops[i].OpIngest? && ops[i].live
    && var r := Ingest(ExecAll(start, ops[..i]), ops[i].caller, ops[i].message, true, ops[i].draws);
       r.IngestOk? && r.inserted
  }

  predicate Announces(n: O.Notice, caller: Caller, m: WireMessage) {
    && n.user == caller.user && n.kind == MessageNew
    && n.message.provider == Some(m.providerMessageId) && n.message.body == m.body && n.message.author == m.authorName
  }

  ghost predicate OnRecord(o: O.State, op: DbOp)
    requires op.OpIngest?
  {
    op.draws.outbox in o.committed && Announces(o.committed[op.draws.outbox], op.caller, op.message)
  }

  ghost predicate AllOnRecord(start: Db, ops: seq<DbOp>, o: O.State) {
    forall i: nat :: InsertedAt(start, ops, i) ==> OnRecord(o, ops[i])
  }

  lemma InsertionFollowed(o: O.State, db: Db, op: DbOp)
    requires op.OpIngest? && op.live && op.draws.outbox !in o.committed && o.table == db.outbox
    requires var r := Ingest(db, op.caller, op.message, true, op.draws); r.IngestOk? && r.inserted
    ensures OnRecord(Followed(o, db, op), op)
  {
  }

  lemma RecordsStay(o: O.State, db: Db, op: DbOp)
    requires Drawn(op).Some? ==> Drawn(op).value !in o.committed
    ensures forall j :: j in o.committed ==> j in Followed(o, db, op).committed && Followed(o, db, op).committed[j] == o.committed[j]
  {
  }

  lemma OneMoreOnRecord(start: Db, ops: seq<DbOp>, op: DbOp, o: O.State)
    requires AllOnRecord(start, ops, o) && o.table == ExecAll(start, ops).outbox
    requires Drawn(op).Some? ==> Drawn(op).value !in o.committed
    ensures AllOnRecord(start, ops + [op], Followed(o, ExecAll(start, ops), op))
  {
    var db := ExecAll(start, ops);
    RecordsStay(o, db, op);
    forall i: nat | InsertedAt(start, ops + [op], i)
      ensures OnRecord(Followed(o, db, op), (ops + [op])[i])
    {
      if i < |ops| {
        assert (ops + [op])[..i] == ops[..i];
        assert InsertedAt(start, ops, i);
      } else {
        assert (ops + [op])[..i] == ops;
        InsertionFollowed(o, db, op);
      }
    }
  }

  /** A mark inserts nothing. */
  lemma MarkOnRecord(start: Db, ops: seq<DbOp>, op: DbOp, o: O.State, next: O.State)
    requires AllOnRecord(start, ops, o) && op.OpDelivered? && next.committed == o.committed
    ensures AllOnRecord(start, ops + [op], next)
  {
    forall i: nat | InsertedAt(start, ops + [op], i)
      ensures OnRecord(next, (ops + [op])[i])
    {
      assert i < |ops|;
      assert (ops + [op])[..i] == ops[..i];
      assert InsertedAt(start, ops, i);
    }
  }

  // ---- the invariant -----------------------------------------------------------------------

  ghost predicate DrainerHolds(start: Db, s: State) {
    O.Inv(s.outbox) && s.outbox.table == s.path.db.outbox && AllOnRecord(start, s.path.ops, s.outbox)
  }

  ghost predicate Inv(caller: Caller, start: Db, s: State) {
    S.Linked(Spooled(s)) && E.Booked(caller, start, s.path) && DrainerHolds(start, s)
  }

  lemma TransactKeeps(caller: Caller, start: Db, s: State, op: DbOp)
    requires E.Booked(caller, start, s.path) && DrainerHolds(start, s) && Enabled(s, Transact(op))
    ensures E.Booked(caller, start, After(caller, s, Transact(op)).path)
    ensures DrainerHolds(start, After(caller, s, Transact(op)))
  {
    var t := After(caller, s, Transact(op));
    E.OneMoreBooked(caller, start, s.path, t.path, op);
    TransactionNotice(s.path.db, op);
    FollowedTable(s.outbox, s.path.db, op);
    OneMoreOnRecord(start, s.path.ops, op, s.outbox);
  }

  lemma TakeKeeps(caller: Caller, start: Db, s: State, draws: Draws)
    requires E.Booked(caller, start, s.path) && DrainerHolds(start, s) && Enabled(s, Take(draws))
    ensures E.Booked(caller, start, After(caller, s, Take(draws)).path)
    ensures DrainerHolds(start, After(caller, s, Take(draws)))
  {
    var op := Ingestion(caller, s, draws);
    E.TakeBooks(caller, start, s.path, draws);
    if op.Some? {
      TransactionNotice(s.path.db, op.value);
      FollowedTable(s.outbox, s.path.db, op.value);
      OneMoreOnRecord(start, s.path.ops, op.value, s.outbox);
    }
  }

  /** The wire after a take: the hub took the envelope, or the connection ended. */
  lemma TakeLinked(caller: Caller, s: State, draws: Draws)
    requires S.Linked(Spooled(s)) && Enabled(s, Take(draws))
    ensures S.Linked(Spooled(After(caller, s, Take(draws))))
  {
    E.TakeWire(caller, s.path, draws);
    S.StepKeeps(Spooled(s), S.Other(D.HubTake));
    S.StepKeeps(Spooled(s), S.Other(D.HubClose));
  }

  lemma MarkKeeps(caller: Caller, start: Db, s: State, mark: O.Step)
    requires E.Booked(caller, start, s.path) && DrainerHolds(start, s) && mark.MarkNext? && O.Enabled(s.outbox, mark)
    ensures E.Booked(caller, start, Transacted(s.path, MarkOp(s.outbox, mark)))
    ensures AllOnRecord(start, Transacted(s.path, MarkOp(s.outbox, mark)).ops, O.After(s.outbox, mark))
  {
    var op := MarkOp(s.outbox, mark).value;
    E.OneMoreBooked(caller, start, s.path, Transacted(s.path, Some(op)), op);
    MarkOnRecord(start, s.path.ops, op, s.outbox, O.After(s.outbox, mark));
  }

  /** The drainer changes the table as its transactions do. */
  lemma DrainTable(s: State, inner: O.Step)
    requires s.outbox.table == s.path.db.outbox && Draining(inner) && O.Enabled(s.outbox, inner)
    ensures O.After(s.outbox, inner).table == Transacted(s.path, MarkOp(s.outbox, inner)).db.outbox
    ensures O.After(s.outbox, inner).committed == s.outbox.committed
  {
  }

  lemma DrainKeeps(caller: Caller, start: Db, s: State, inner: O.Step)
    requires E.Booked(caller, start, s.path) && DrainerHolds(start, s) && Enabled(s, Drain(inner))
    ensures E.Booked(caller, start, After(caller, s, Drain(inner)).path)
    ensures DrainerHolds(start, After(caller, s, Drain(inner)))
  {
    O.StepKeeps(s.outbox, inner);
    DrainTable(s, inner);
    if inner.MarkNext? {
      MarkKeeps(caller, start, s, inner);
    }
  }

  /** Only a take commits messages. */
  lemma SpoolKeepsBooks(caller: Caller, start: Db, s: State, inner: S.Step)
    requires E.Booked(caller, start, s.path) && Enabled(s, Spool(inner))
    ensures E.Booked(caller, start, After(caller, s, Spool(inner)).path)
  {
    var d := S.WireStep(Spooled(s), inner);
    if d.Some? && D.Enabled(s.path.wire, d.value) {
      E.IngestedOnlyByTake(s.path.wire, d.value);
    }
  }

  lemma {:induction false} StepKeeps(caller: Caller, start: Db, s: State, step: Step)
    requires Inv(caller, start, s) && Enabled(s, step)
    ensures Inv(caller, start, After(caller, s, step))
  {
    match step {
      case Spool(inner) =>
        S.StepKeeps(Spooled(s), inner);
        SpoolKeepsBooks(caller, start, s, inner);
      case Take(draws) =>
        TakeKeeps(caller, start, s, draws);
        TakeLinked(caller, s, draws);
      case Transact(op) => TransactKeeps(caller, start, s, op);
      case Drain(inner) => DrainKeeps(caller, start, s, inner);
    }
  }

  lemma {:induction false} RunKeeps(caller: Caller, start: Db, s: State, steps: seq<Step>, t: State)
    requires Inv(caller, start, s) && Leads(caller, s, steps, t)
    ensures Inv(caller, start, t)
    decreases |steps|
  {
    if steps != [] {
      StepKeeps(caller, start, s, steps[0]);
      RunKeeps(caller, start, After(caller, s, steps[0]), steps[1..], t);
    }
  }

  lemma InitialInv(caller: Caller, start: Db)
    requires start.outbox == map[]
    ensures Inv(caller, start, Initial(start))
  {
    S.InitiallyLinked();
  }

  // ---- the drainer's own run ----------------------------------------------------------------

  /** What the step is to the drainer. */
  ghost function OutboxPart(caller: Caller, s: State, step: Step): Option<O.Step>
    requires Enabled(s, step)
  {
    match step
    case Spool(_) => None
    case Take(draws) =>
      var op := Ingestion(caller, s, draws);
      if op.Some? && OutboxStep(s.path.db, op.value).Some? && O.Enabled(s.outbox, OutboxStep(s.path.db, op.value).value)
      then OutboxStep(s.path.db, op.value) else None
    case Transact(op) =>
      if OutboxStep(s.path.db, op).Some? && O.Enabled(s.outbox, OutboxStep(s.path.db, op).value)
      then OutboxStep(s.path.db, op) else None
    case Drain(inner) => Some(inner)
  }

  lemma OutboxMoves(caller: Caller, s: State, step: Step)
    requires Enabled(s, step)
    ensures var o := OutboxPart(caller, s, step);
            if o.Some? then O.Enabled(s.outbox, o.value) && After(caller, s, step).outbox == O.After(s.outbox, o.value)
            else After(caller, s, step).outbox == s.outbox
  {
  }

  lemma {:induction false} OutboxProjects(caller: Caller, s: State, steps: seq<Step>, t: State) returns (outbox: seq<O.Step>)
    requires Leads(caller, s, steps, t)
    ensures O.Leads(s.outbox, outbox, t.outbox)
    decreases |steps|
  {
    outbox := [];
    if steps != [] {
      OutboxMoves(caller, s, steps[0]);
      outbox := OutboxProjects(caller, After(caller, s, steps[0]), steps[1..], t);
      var o := OutboxPart(caller, s, steps[0]);
      if o.Some? {
        assert ([o.value] + outbox)[1..] == outbox;
        outbox := [o.value] + outbox;
      }
    }
  }

  lemma {:induction false} PublishedStays(s: O.State, steps: seq<O.Step>, t: O.State, j: nat)
    requires O.Leads(s, steps, t) && j in s.committed && s.committed[j] in s.published
    ensures j in t.committed && t.committed[j] == s.committed[j] && t.committed[j] in t.published
    decreases |steps|
  {
    if steps != [] {
      PublishedStays(O.After(s, steps[0]), steps[1..], t, j);
    }
  }

  // ---- from the file to the publication -------------------------------------------------------

  /** The event's file survives every crash, and Pending finds it afterwards. */
  ghost predicate InDirectory(fs: Fs, e: Envelope) {
    Safe(fs, e.id)
    && forall after :: CrashImage(fs, after) ==> Readable(View(after)) && e.id in Ids(Queue(View(after)))
  }

  /** An ingest that found the message's row there already. */
  lemma FoundFiled(db: Db, caller: Caller, m: WireMessage, draws: Draws)
    requires Schema(db)
    requires var r := Ingest(db, caller, m, true, draws); r.IngestOk? && !r.inserted
    ensures E.Filed(db, caller.account, m)
  {
    var r := Ingest(db, caller, m, true, draws);
    var (c, conversations) := UpsertConversation(db, caller, m, draws);
    assert IsRow(db, r.id, c, m.providerMessageId);
    assert ConversationOf(db, caller.account, m.conversationId) == Some(c);
    assert IsConversation(db, c, caller.account, m.conversationId);
  }

  /** Notice `j` waits or has been published by `s`, and is published by `t` if enough drains have completed. */
  ghost predicate GoesOut(s: O.State, t: O.State, j: nat) {
    && j in s.committed && j in t.committed && t.committed[j] == s.committed[j]
    && (O.IsPending(s.table, j) || s.committed[j] in s.published)
    && (t.drains - s.drains - (if s.progress.Draining? then 1 else 0) > j / O.DRAIN ==> t.committed[j] in t.published)
  }

  lemma NoticeGoesOut(start: O.State, first: seq<O.Step>, s: O.State, rest: seq<O.Step>, t: O.State, j: nat)
    requires O.Initial(start) && O.Leads(start, first, s) && O.Leads(s, rest, t) && j in s.committed
    ensures GoesOut(s, t, j)
  {
    O.OutboxConservation(start, first, s);
    O.RecordedStays(s, rest, t, j);
    if s.committed[j] in s.published {
      PublishedStays(s, rest, t, j);
    } else if t.drains - s.drains - (if s.progress.Draining? then 1 else 0) > j / O.DRAIN {
      O.NeverSkipped(start, first, s, rest, t, j);
    }
  }

  /** The message was committed by transaction i, which left it a row; it was there before, or its
      announcement goes out. */
  ghost predicate CarriedThrough(caller: Caller, start: Db, s: State, t: State, m: WireMessage, i: nat) {
    && E.CommittedAt(caller, start, s.path.ops, i, m)
    && E.Filed(ExecAll(start, s.path.ops[..i + 1]), caller.account, m)
    && (E.Filed(ExecAll(start, s.path.ops[..i]), caller.account, m)
        || (OnRecord(s.outbox, s.path.ops[i]) && GoesOut(s.outbox, t.outbox, s.path.ops[i].draws.outbox)))
  }

  lemma BooksHold(caller: Caller, start: Db, steps: seq<Step>, s: State)
    requires start.outbox == map[] && Leads(caller, Initial(start), steps, s)
    ensures S.Linked(Spooled(s)) && E.Booked(caller, start, s.path) && AllOnRecord(start, s.path.ops, s.outbox)
  {
    InitialInv(caller, start);
    RunKeeps(caller, start, Initial(start), steps, s);
  }

  /** From the file in the directory to the publication. In every run of worker, directory, connection, hub,
      transactions and drainer, with crashes and failures anywhere: a message whose append was confirmed is in a
      file that survives whatever crash comes next, or a transaction has filed it; and unless it had been filed
      before, its announcement, for the account's user and with its contents, waits in the outbox or has been
      published, and has been published once j / 100 + 1 further drains have completed, j being its outbox id. */
  lemma FileToPublication(caller: Caller, start: Db, first: seq<Step>, s: State, rest: seq<Step>, t: State, e: Envelope)
    requires Schema(start) && start.outbox == map[]
    requires Leads(caller, Initial(start), first, s) && Leads(caller, s, rest, t)
    requires e in s.path.wire.hist && e.id in s.path.wire.confirmed && e.payload.MessagePayload?
    ensures InDirectory(s.fs, e) || exists i: nat :: CarriedThrough(caller, start, s, t, e.payload.message, i)
  {
    BooksHold(caller, start, first, s);
    if e in s.path.wire.log && e.payload.message in s.path.wire.ingested {
      var m := e.payload.message;
      var i: nat :| E.CommittedAt(caller, start, s.path.ops, i, m);
      var early := OutboxProjects(caller, Initial(start), first, s);
      var late := OutboxProjects(caller, s, rest, t);
      CommitCarries(caller, start, s, t, m, i, Initial(start).outbox, early, late);
    } else {
      S.ConfirmedSurvives(Spooled(s), e);
    }
  }

  lemma CommitCarries(caller: Caller, start: Db, s: State, t: State, m: WireMessage, i: nat,
                      begin: O.State, early: seq<O.Step>, late: seq<O.Step>)
    requires Schema(start) && AllOnRecord(start, s.path.ops, s.outbox)
    requires E.CommittedAt(caller, start, s.path.ops, i, m)
    requires O.Initial(begin) && O.Leads(begin, early, s.outbox) && O.Leads(s.outbox, late, t.outbox)
    ensures CarriedThrough(caller, start, s, t, m, i)
  {
    var ops := s.path.ops;
    var before := ExecAll(start, ops[..i]);
    E.CommitFiles(caller, start, ops, i, m);
    ExecAllSchema(start, ops[..i]);
    if Ingest(before, caller, m, true, ops[i].draws).inserted {
      assert InsertedAt(start, ops, i);
      NoticeGoesOut(begin, early, s.outbox, late, t.outbox, ops[i].draws.outbox);
    } else {
      FoundFiled(before, caller, m, ops[i].draws);
    }
  }
}

/** A completed send and its echoes among all other transactions. */
module EchoRuns {
  import opened Prelude
  import opened Protocol
  import opened Tables
  import opened MessageOps
  import opened DbRuns
  import opened Echo

  /** The transaction does not record an outcome for the command of row `id`. */
  predicate Spares(db: Db, op: DbOp, id: MessageId) {
    (op.OpComplete? || op.OpFail?) && op.command in db.commands ==> db.commands[op.command].message != Some(id)
  }

  /** Along the run the row is not deleted, and its command is not settled again. */
  ghost predicate Undisturbed(db: Db, ops: seq<DbOp>, id: MessageId)
    decreases |ops|
  {
    id in db.messages
    && (ops == [] || (Spares(db, ops[0], id) && Undisturbed(Exec(db, ops[0]), ops[1..], id)))
  }

  lemma IngestSpares(db: Db, op: DbOp, id: MessageId)
    requires op.OpIngest? && id in db.messages
    ensures id in Exec(db, op).messages && Exec(db, op).messages[id] == db.messages[id]
  {
  }

  lemma SettlingSparesOthers(db: Db, op: DbOp, id: MessageId)
    requires (op.OpComplete? || op.OpFail?) && Spares(db, op, id)
    requires id in db.messages && id in Exec(db, op).messages
    ensures Exec(db, op).messages[id] == db.messages[id]
  {
  }

  lemma OthersSpare(db: Db, op: DbOp, id: MessageId)
    requires !op.OpIngest? && !op.OpComplete? && !op.OpFail?
    requires id in db.messages && id in Exec(db, op).messages
    ensures Exec(db, op).messages[id] == db.messages[id]
  {
  }

  lemma RowUnchanged(db: Db, op: DbOp, id: MessageId)
    requires Spares(db, op, id) && id in db.messages && id in Exec(db, op).messages
    ensures Exec(db, op).messages[id] == db.messages[id]
  {
    match op {
      case OpIngest(_, _, _, _) => IngestSpares(db, op, id);
      case OpComplete(_, _, _, _, _) => SettlingSparesOthers(db, op, id);
      case OpFail(_, _, _, _) => SettlingSparesOthers(db, op, id);
      case _ => OthersSpare(db, op, id);
    }
  }

  lemma {:induction false} RowStays(db: Db, ops: seq<DbOp>, id: MessageId)
    requires Undisturbed(db, ops, id)
    ensures id in ExecAll(db, ops).messages && ExecAll(db, ops).messages[id] == db.messages[id]
    decreases |ops|
  {
    if ops != [] {
      RowUnchanged(db, ops[0], id);
      RowStays(Exec(db, ops[0]), ops[1..], id);
    }
  }

  /** Completion takes the provider's key over from any echo, whatever came before. */
  lemma CompletionTakesKey(db: Db, user: string, command: string, p: string, sentAt: Instant, outbox: nat, c: string, id: MessageId)
    requires Schema(db) && Completes(db, user, command, p, outbox, c, id)
    ensures var d := Exec(db, OpComplete(user, command, p, sentAt, outbox));
            Schema(d) && OnlyRow(d, id, c, p) && d.messages[id] == Confirmed(db.messages[id], p, sentAt)
  {
    var op := OpComplete(user, command, p, sentAt, outbox);
    CompleteIs(db, user, command, p, sentAt, outbox, c, id);
    ExecSchema(db, op);
    OnlyOne(Exec(db, op), id, c, p);
  }

  /** Before the completion any transactions may have run, echoes among them; after it, any others: as long as
      the row is not deleted and its command not settled again, the prepared row is the only one with the
      provider's id, sent and unchanged, and every further echo leaves the messages alone. */
  lemma EchoesAmongTransactions(start: Db, before: seq<DbOp>, user: string, command: string, p: string, sentAt: Instant,
                                outbox: nat, c: string, id: MessageId, after: seq<DbOp>, echo: DbOp)
    requires Schema(start) && Completes(ExecAll(start, before), user, command, p, outbox, c, id)
    requires var d := Exec(ExecAll(start, before), OpComplete(user, command, p, sentAt, outbox));
             Undisturbed(d, after, id) && IsEcho(ExecAll(d, after), echo, c, p)
    ensures var db := ExecAll(start, before);
            var last := ExecAll(Exec(db, OpComplete(user, command, p, sentAt, outbox)), after);
            && OnlyRow(last, id, c, p)
            && last.messages[id] == Confirmed(db.messages[id], p, sentAt) && last.messages[id].status == Sent
            && Exec(last, echo).messages == last.messages && Exec(last, echo).outbox == last.outbox
  {
    var db := ExecAll(start, before);
    ExecAllSchema(start, before);
    CompletionTakesKey(db, user, command, p, sentAt, outbox, c, id);
    var d := Exec(db, OpComplete(user, command, p, sentAt, outbox));
    RowStays(d, after, id);
    ExecAllSchema(d, after);
    var last := ExecAll(d, after);
    OnlyOne(last, id, c, p);
    EchoIsIdle(last, echo, c, p, id);
  }

  lemma EchoIsIdle(db: Db, echo: DbOp, c: string, p: string, id: MessageId)
    requires Schema(db) && IsRow(db, id, c, p) && IsEcho(db, echo, c, p)
    ensures Exec(db, echo).messages == db.messages && Exec(db, echo).outbox == db.outbox
  {
    assert IsConversation(db, c, echo.caller.account, echo.message.conversationId);
    assert ConversationOf(db, echo.caller.account, echo.message.conversationId) == Some(c);
    assert RowOf(db, c, p) == Some(id);
  }
}

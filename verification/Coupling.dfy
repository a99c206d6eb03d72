/** A command and its message move together under every transaction. */
module Coupling {
  import opened Prelude
  import opened Protocol
  import opened Tables
  import opened MessageOps
  import opened DbRuns

  predicate IsOpen(status: CommandStatus) { status == Pending || status == Dispatched }

  /** The message status that goes with a command's status. */
  function Counterpart(status: CommandStatus): MessageStatus {
    match status
    case Pending => MessagePending
    case Dispatched => MessagePending
    case Completed => Sent
    case Failed => SendFailed
    case Unknown => SendUnknown
  }

  /** An open command has its pending message; a settled one has the matching message or none. */
  predicate Matches(db: Db, c: string)
    requires c in db.commands
  {
    var command := db.commands[c];
    && (IsOpen(command.status) ==> command.message.Some?)
    && (command.message.Some? ==>
          && command.message.value in db.messages
          && var row := db.messages[command.message.value];
             && row.status == Counterpart(command.status)
             && (IsOpen(command.status) ==> row.provider.None?)
             && row.conversation in db.conversations
             && db.conversations[row.conversation].account == command.account)
  }

  predicate Links(db: Db, c: string, id: MessageId) { c in db.commands && db.commands[c].message == Some(id) }

  ghost predicate Coupled(db: Db) {
    && Schema(db)
    && (forall c :: c in db.commands ==> Matches(db, c))
    && (forall c, d, id :: Links(db, c, id) && Links(db, d, id) ==> c == d)
  }

  // ---- transactions that touch no linked row --------------------------------

  /** Linked rows, their conversations' accounts and the commands are as before. */
  lemma UntouchedCoupled(db: Db, after: Db)
    requires Coupled(db) && Schema(after)
    requires after.commands == db.commands
    requires forall id :: id in db.messages ==> id in after.messages && after.messages[id] == db.messages[id]
    requires forall c :: c in db.conversations ==>
               c in after.conversations && after.conversations[c].account == db.conversations[c].account
    ensures Coupled(after)
  {
    forall c | c in after.commands
      ensures Matches(after, c)
    {
      assert Matches(db, c);
    }
    assert forall c, id :: Links(after, c, id) ==> Links(db, c, id);
  }

  lemma IngestCoupled(db: Db, op: DbOp)
    requires Coupled(db) && op.OpIngest?
    ensures Coupled(Exec(db, op))
  {
    ExecSchema(db, op);
    IngestFrame(db, op.caller, op.message, op.live, op.draws);
    UntouchedCoupled(db, Exec(db, op));
  }

  lemma IngestFrame(db: Db, caller: Caller, m: WireMessage, live: bool, draws: Draws)
    ensures var r := Ingest(db, caller, m, live, draws);
            r.IngestOk? ==>
              && r.db.commands == db.commands
              && (forall id :: id in db.messages ==> id in r.db.messages && r.db.messages[id] == db.messages[id])
              && (forall c :: c in db.conversations ==>
                    c in r.db.conversations && r.db.conversations[c].account == db.conversations[c].account)
  {
  }

  lemma SyncCoupled(db: Db, op: DbOp)
    requires Coupled(db) && op.OpSync?
    ensures Coupled(Exec(db, op))
  {
    ExecSchema(db, op);
    SyncFrame(db, op);
    UntouchedCoupled(db, Exec(db, op));
  }

  /** A sync touches conversations only, and none of their accounts. */
  lemma SyncFrame(db: Db, op: DbOp)
    requires op.OpSync?
    ensures Exec(db, op) == db.(conversations := Exec(db, op).conversations)
    ensures forall c :: c in db.conversations ==>
              c in Exec(db, op).conversations && Exec(db, op).conversations[c].account == db.conversations[c].account
  {
  }

  // ---- preparing and dispatching ---------------------------------------------

  lemma PrepareCoupled(db: Db, user: string, conversation: string, body: string, key: string, now: Instant, draws: Draws)
    requires Coupled(db)
    ensures var r := PrepareSend(db, user, conversation, body, key, now, draws); r.Prepared? ==> Coupled(r.db)
  {
    var r := PrepareSend(db, user, conversation, body, key, now, draws);
    if r.Prepared? {
      PrepareSchema(db, user, conversation, body, key, now, draws);
      forall c | c in r.db.commands
        ensures Matches(r.db, c)
      {
        if c != draws.command {
          assert Matches(db, c);
        }
      }
      assert forall c, id :: Links(r.db, c, id) ==>
          (c != draws.command && Links(db, c, id)) || (c == draws.command && id == draws.message);
    }
  }

  lemma MarkCoupled(db: Db, command: string, now: Instant)
    requires Coupled(db)
    ensures Coupled(MarkDispatched(db, command, now))
  {
    var after := MarkDispatched(db, command, now);
    SameKeysSchema(db, after);
    forall c | c in after.commands
      ensures Matches(after, c)
    {
      assert Matches(db, c);
    }
    assert forall c, id :: Links(after, c, id) ==> Links(db, c, id);
  }

  // ---- settling ---------------------------------------------------------------

  /** Deleting rows none of which belongs to an open command. */
  lemma DeleteCoupled(db: Db, gone: set<MessageId>)
    requires Coupled(db)
    requires forall id :: id in gone && id in db.messages ==>
               db.messages[id].status != MessagePending || db.messages[id].provider.Some?
    ensures Coupled(DeleteMessages(db, gone))
    ensures forall c :: c in db.commands && IsOpen(db.commands[c].status) ==>
              DeleteMessages(db, gone).commands[c] == db.commands[c]
  {
    DeleteMessagesSchema(db, gone);
    var after := DeleteMessages(db, gone);
    forall c | c in after.commands
      ensures Matches(after, c)
      ensures IsOpen(db.commands[c].status) ==> after.commands[c] == db.commands[c]
    {
      assert Matches(db, c);
    }
    assert forall c, id :: Links(after, c, id) ==> Links(db, c, id);
  }

  lemma SettleCoupled(db: Db, user: string, command: string, id: MessageId, row: Message, status: CommandStatus, outbox: nat)
    requires Coupled(db) && Links(db, command, id) && id in db.messages
    requires row.conversation == db.messages[id].conversation
    requires row.status == Counterpart(status) && !IsOpen(status)
    requires Schema(Settle(db, user, command, id, row, status, outbox))
    ensures Coupled(Settle(db, user, command, id, row, status, outbox))
  {
    var after := Settle(db, user, command, id, row, status, outbox);
    forall c | c in after.commands
      ensures Matches(after, c)
    {
      assert Matches(db, c);
      if c != command && db.commands[c].message.Some? {
        assert Links(db, c, db.commands[c].message.value);
      }
    }
    assert forall c, o :: Links(after, c, o) ==> Links(db, c, o);
  }

  lemma CompleteCoupled(db: Db, user: string, command: string, provider: string, sentAt: Instant, outbox: nat)
    requires Coupled(db)
    requires command in db.commands ==> IsOpen(db.commands[command].status)
    ensures var r := CompleteSend(db, user, command, provider, sentAt, outbox); r.Finished? ==> Coupled(r.db)
  {
    var r := CompleteSend(db, user, command, provider, sentAt, outbox);
    if r.Finished? {
      var id := db.commands[command].message.value;
      var row := db.messages[id];
      var gone := if provider == "" then {} else Echoes(db, row.conversation, provider, id);
      DeleteCoupled(db, gone);
      CompleteSchema(db, user, command, provider, sentAt, outbox);
      SettleCoupled(DeleteMessages(db, gone), user, command, id, Confirmed(row, provider, sentAt), Completed, outbox);
    }
  }

  lemma FailCoupled(db: Db, user: string, command: string, code: string, outbox: nat)
    requires Coupled(db)
    ensures var r := FailSend(db, user, command, code, outbox); r.Finished? ==> Coupled(r.db)
  {
    var r := FailSend(db, user, command, code, outbox);
    if r.Finished? {
      var id := db.commands[command].message.value;
      FailSchema(db, user, command, code, outbox);
      SettleCoupled(db, user, command, id, db.messages[id].(status := FailedMessage(code)), FailedCommand(code), outbox);
    }
  }

  lemma AccountCoupled(db: Db, account: string)
    requires Coupled(db)
    ensures Coupled(DeleteAccountRows(db, account))
    ensures forall c :: c in db.commands && db.commands[c].account != account ==>
              c in DeleteAccountRows(db, account).commands && DeleteAccountRows(db, account).commands[c] == db.commands[c]
  {
    DeleteAccountRowsSchema(db, account);
    var after := DeleteAccountRows(db, account);
    forall c | c in db.commands && db.commands[c].account != account
      ensures c in after.commands && after.commands[c] == db.commands[c]
    {
      assert Matches(db, c);
    }
    forall c | c in after.commands
      ensures Matches(after, c)
    {
      assert Matches(db, c);
    }
    assert forall c, id :: Links(after, c, id) ==> Links(db, c, id);
  }

  /** Transactions other than the four of a send. */
  predicate IsBackground(op: DbOp) {
    !op.OpPrepare? && !op.OpMark? && !op.OpComplete? && !op.OpFail?
  }

  lemma PruneCoupled(db: Db, cutoff: Instant, keep: nat)
    requires Coupled(db)
    ensures Coupled(PruneMessages(db, cutoff, keep))
    ensures forall c :: c in db.commands && IsOpen(db.commands[c].status) ==>
              PruneMessages(db, cutoff, keep).commands[c] == db.commands[c]
  {
    DeleteCoupled(db, Stale(db, cutoff, keep));
  }

  lemma BackgroundCoupled(db: Db, op: DbOp)
    requires Coupled(db) && IsBackground(op)
    ensures Coupled(Exec(db, op))
  {
    match op {
      case OpIngest(_, _, _, _) => IngestCoupled(db, op);
      case OpSync(_, _, _, _, _) => SyncCoupled(db, op);
      case OpPrune(cutoff, keep) => PruneCoupled(db, cutoff, keep);
      case OpPruneOutbox(_) => SideTableCoupled(db, Exec(db, op));
      case OpDelivered(_, _) => SideTableCoupled(db, Exec(db, op));
      case OpCreateAccount(_, _) => SideTableCoupled(db, Exec(db, op));
      case OpDeleteAccount(user, account) => AccountCoupled(db, account);
    }
  }

  lemma SideTableCoupled(db: Db, after: Db)
    requires Coupled(db)
    requires after == db.(outbox := after.outbox, accounts := after.accounts)
    requires db.accounts.Keys <= after.accounts.Keys
    ensures Coupled(after)
  {
    SameKeysSchema(db, after);
    UntouchedCoupled(db, after);
  }

  /** Accounts, keys and statuses of commands are left alone, and a command goes only with its account. */
  ghost predicate CommandsPreserved(db: Db, after: Db) {
    && (forall c :: c in after.commands ==> c in db.commands)
    && (forall c :: c in db.commands && c in after.commands ==>
          after.commands[c].account == db.commands[c].account && after.commands[c].key == db.commands[c].key
          && after.commands[c].status == db.commands[c].status)
    && (forall c :: c in db.commands && db.commands[c].account in after.accounts ==> c in after.commands)
    && (forall a :: a in db.accounts && a in after.accounts ==> after.accounts[a] == db.accounts[a])
  }

  lemma BackgroundPreserves(db: Db, op: DbOp)
    requires IsBackground(op)
    ensures CommandsPreserved(db, Exec(db, op))
  {
    match op {
      case OpIngest(caller, m, live, draws) => IngestFrame(db, caller, m, live, draws);
      case OpPrune(cutoff, keep) => DeletePreserves(db, Stale(db, cutoff, keep));
      case OpDeleteAccount(_, account) => AccountPreserves(db, account);
      case OpSync(_, _, _, _, _) => SyncFrame(db, op);
      case _ => SidePreserves(db, op);
    }
  }

  lemma SidePreserves(db: Db, op: DbOp)
    requires op.OpPruneOutbox? || op.OpDelivered? || op.OpCreateAccount?
    ensures CommandsPreserved(db, Exec(db, op))
  {
  }

  lemma DeletePreserves(db: Db, gone: set<MessageId>)
    ensures CommandsPreserved(db, DeleteMessages(db, gone))
  {
  }

  lemma AccountPreserves(db: Db, account: string)
    ensures CommandsPreserved(db, DeleteAccountRows(db, account))
  {
  }
}

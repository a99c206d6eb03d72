/** Arbitrary sequences of transactions: every one keeps the schema's constraints. */
module DbRuns {
  import opened Prelude
  import opened Protocol
  import opened Tables
  import opened MessageOps
  import Outbox

  /** One entry of UpsertConversations, for an account the user owns. */
  ghost function SyncConversation(db: Db, account: string, provider: string, title: string, kind: string, draw: string): Db {
    var found := ConversationOf(db, account, provider);
    if provider == "" then db
    else if found.Some? then
      db.(conversations := db.conversations[found.value := db.conversations[found.value].(title := title, kind := kind)])
    else if account !in db.accounts || draw in db.conversations then db
    else db.(conversations := db.conversations[draw := Conversation(account, provider, title, kind, 0, None)])
  }

  function MarkDelivered(db: Db, id: nat, now: Instant): Db {
    db.(outbox := Outbox.Marked(db.outbox, id, now))
  }

  datatype DbOp =
    | OpIngest(caller: Caller, message: WireMessage, live: bool, draws: Draws)
    | OpSync(account: string, provider: string, title: string, kind: string, draw: string)
    | OpPrepare(user: string, conversation: string, body: string, key: string, now: Instant, draws: Draws)
    | OpMark(command: string, now: Instant)
    | OpComplete(user: string, command: string, provider: string, sentAt: Instant, outbox: nat)
    | OpFail(user: string, command: string, code: string, outbox: nat)
    | OpPrune(cutoff: Instant, keep: nat)
    | OpPruneOutbox(before: Instant)
    | OpDelivered(id: nat, now: Instant)
    | OpCreateAccount(account: string, owner: Account)
    | OpDeleteAccount(user: string, account: string)

  ghost function Exec(db: Db, op: DbOp): Db {
    match op
    case OpIngest(caller, m, live, draws) =>
      var r := Ingest(db, caller, m, live, draws);
      if r.IngestOk? then r.db else db
    case OpSync(account, provider, title, kind, draw) => SyncConversation(db, account, provider, title, kind, draw)
    case OpPrepare(user, conversation, body, key, now, draws) =>
      var r := PrepareSend(db, user, conversation, body, key, now, draws);
      if r.Prepared? then r.db else db
    case OpMark(command, now) => MarkDispatched(db, command, now)
    case OpComplete(user, command, provider, sentAt, outbox) =>
      var r := CompleteSend(db, user, command, provider, sentAt, outbox);
      if r.Finished? then r.db else db
    case OpFail(user, command, code, outbox) =>
      var r := FailSend(db, user, command, code, outbox);
      if r.Finished? then r.db else db
    case OpPrune(cutoff, keep) => PruneMessages(db, cutoff, keep)
    case OpPruneOutbox(before) => PruneOutbox(db, before)
    case OpDelivered(id, now) => MarkDelivered(db, id, now)
    case OpCreateAccount(account, owner) =>
      if account in db.accounts then db else db.(accounts := db.accounts[account := owner])
    case OpDeleteAccount(user, account) =>
      if Owns(db, user, account) then DeleteAccountRows(db, account) else db
  }

  ghost function ExecAll(db: Db, ops: seq<DbOp>): Db
    decreases |ops|
  {
    if ops == [] then db else ExecAll(Exec(db, ops[0]), ops[1..])
  }

  lemma {:induction false} ExecAllConcat(db: Db, a: seq<DbOp>, b: seq<DbOp>)
    ensures ExecAll(db, a + b) == ExecAll(ExecAll(db, a), b)
    decreases |a|
  {
    if a == [] {
      assert a + b == b;
    } else {
      assert (a + b)[1..] == a[1..] + b;
      ExecAllConcat(Exec(db, a[0]), a[1..], b);
    }
  }

  // ---- the constraints are kept --------------------------------------------

  lemma ReplaceConversation(db: Db, c: string, row: Conversation)
    requires Schema(db) && c in db.conversations
    requires row.account == db.conversations[c].account && row.provider == db.conversations[c].provider
    ensures Schema(db.(conversations := db.conversations[c := row]))
  {
    var after := db.(conversations := db.conversations[c := row]);
    assert forall d, a, p :: IsConversation(after, d, a, p) ==> IsConversation(db, d, a, p);
    assert forall d, a, k :: IsCommand(after, d, a, k) ==> IsCommand(db, d, a, k);
    assert forall id, d, p :: IsRow(after, id, d, p) ==> IsRow(db, id, d, p);
  }

  lemma AddConversation(db: Db, c: string, row: Conversation)
    requires Schema(db) && c !in db.conversations && row.account in db.accounts
    requires forall d :: !IsConversation(db, d, row.account, row.provider)
    ensures Schema(db.(conversations := db.conversations[c := row]))
  {
    var after := db.(conversations := db.conversations[c := row]);
    assert forall d, a, p :: IsConversation(after, d, a, p) ==>
        (d != c && IsConversation(db, d, a, p)) || (d == c && a == row.account && p == row.provider);
    assert forall d, a, k :: IsCommand(after, d, a, k) ==> IsCommand(db, d, a, k);
    assert forall id, d, p :: IsRow(after, id, d, p) ==> IsRow(db, id, d, p);
  }

  lemma AddMessage(db: Db, id: MessageId, row: Message, outbox: map<nat, OutboxRow>)
    requires Schema(db) && id !in db.messages && row.conversation in db.conversations
    requires row.provider.Some? ==> forall o :: !IsRow(db, o, row.conversation, row.provider.value)
    ensures Schema(db.(messages := db.messages[id := row], outbox := outbox))
  {
    var after := db.(messages := db.messages[id := row], outbox := outbox);
    assert forall d, a, p :: IsConversation(after, d, a, p) ==> IsConversation(db, d, a, p);
    assert forall d, a, k :: IsCommand(after, d, a, k) ==> IsCommand(db, d, a, k);
    assert forall o, d, p :: IsRow(after, o, d, p) ==>
        (o != id && IsRow(db, o, d, p)) || (o == id && d == row.conversation && row.provider == Some(p));
  }

  lemma UpsertSchema(db: Db, caller: Caller, m: WireMessage, draws: Draws)
    requires Schema(db) && Acceptable(m)
    requires ConversationOf(db, caller.account, m.conversationId).Some?
          || (caller.account in db.accounts && draws.conversation !in db.conversations)
    ensures var (c, conversations) := UpsertConversation(db, caller, m, draws);
            c in conversations && Schema(db.(conversations := conversations))
  {
    var found := ConversationOf(db, caller.account, m.conversationId);
    var (c, conversations) := UpsertConversation(db, caller, m, draws);
    if found.Some? {
      ReplaceConversation(db, c, conversations[c]);
    } else {
      AddConversation(db, c, conversations[c]);
    }
  }

  /** The ON CONFLICT clauses keep every unique index: ingest never violates one. */
  lemma IngestSchema(db: Db, caller: Caller, m: WireMessage, live: bool, draws: Draws)
    requires Schema(db)
    ensures var r := Ingest(db, caller, m, live, draws); r.IngestOk? ==> Schema(r.db)
  {
    var r := Ingest(db, caller, m, live, draws);
    if r.IngestOk? {
      UpsertSchema(db, caller, m, draws);
      var (c, conversations) := UpsertConversation(db, caller, m, draws);
      var middle := db.(conversations := conversations);
      if r.inserted {
        var counted := r.db.conversations[c];
        ReplaceConversation(middle, c, counted);
        assert conversations[c := counted] == r.db.conversations;
        var next := middle.(conversations := r.db.conversations);
        assert forall o, p :: IsRow(next, o, c, p) ==> IsRow(db, o, c, p);
        AddMessage(next, draws.message, WireRow(c, m), r.db.outbox);
      }
    }
  }

  lemma PrepareSchema(db: Db, user: string, conversation: string, body: string, key: string, now: Instant, draws: Draws)
    requires Schema(db)
    ensures var r := PrepareSend(db, user, conversation, body, key, now, draws); r.Prepared? ==> Schema(r.db)
  {
    var r := PrepareSend(db, user, conversation, body, key, now, draws);
    if r.Prepared? {
      assert forall d, a, p :: IsConversation(r.db, d, a, p) ==> IsConversation(db, d, a, p);
      assert forall id, d, p :: IsRow(r.db, id, d, p) ==> IsRow(db, id, d, p);
      assert forall d, a, k :: IsCommand(r.db, d, a, k) ==>
          IsCommand(db, d, a, k) || (d == draws.command && a == r.account && k == key);
    }
  }

  lemma SettleSchema(db: Db, user: string, command: string, id: MessageId, row: Message, status: CommandStatus, outbox: nat)
    requires Schema(db) && command in db.commands && id in db.messages
    requires row.conversation == db.messages[id].conversation
    requires forall p, o :: row.provider == Some(p) && IsRow(db, o, row.conversation, p) ==> o == id
    ensures Schema(Settle(db, user, command, id, row, status, outbox))
  {
    var after := Settle(db, user, command, id, row, status, outbox);
    assert forall d, a, p :: IsConversation(after, d, a, p) ==> IsConversation(db, d, a, p);
    assert forall d, a, k :: IsCommand(after, d, a, k) ==> IsCommand(db, d, a, k);
    assert forall o, c, p :: IsRow(after, o, c, p) ==>
        (o != id && IsRow(db, o, c, p)) || (o == id && c == row.conversation && row.provider == Some(p));
  }

  /** Deleting the echo first is what keeps CompleteSend clear of the provider index. */
  lemma CompleteSchema(db: Db, user: string, command: string, provider: string, sentAt: Instant, outbox: nat)
    requires Schema(db)
    ensures var r := CompleteSend(db, user, command, provider, sentAt, outbox); r.Finished? ==> Schema(r.db)
  {
    var r := CompleteSend(db, user, command, provider, sentAt, outbox);
    if r.Finished? {
      var id := db.commands[command].message.value;
      var row := db.messages[id];
      var gone := if provider == "" then {} else Echoes(db, row.conversation, provider, id);
      var middle := DeleteMessages(db, gone);
      DeleteMessagesSchema(db, gone);
      assert forall o, c, p :: IsRow(middle, o, c, p) ==> IsRow(db, o, c, p) && o !in gone;
      SettleSchema(middle, user, command, id, Confirmed(row, provider, sentAt), Completed, outbox);
    }
  }

  lemma FailSchema(db: Db, user: string, command: string, code: string, outbox: nat)
    requires Schema(db)
    ensures var r := FailSend(db, user, command, code, outbox); r.Finished? ==> Schema(r.db)
  {
    var r := FailSend(db, user, command, code, outbox);
    if r.Finished? {
      var id := db.commands[command].message.value;
      var row := db.messages[id].(status := FailedMessage(code));
      forall p, o | row.provider == Some(p) && IsRow(db, o, row.conversation, p)
        ensures o == id
      {
        assert IsRow(db, id, row.conversation, p);
      }
      SettleSchema(db, user, command, id, row, FailedCommand(code), outbox);
    }
  }

  /** Changes that leave keys and links alone keep the constraints. */
  lemma SameKeysSchema(db: Db, after: Db)
    requires Schema(db)
    requires after.conversations == db.conversations && after.messages == db.messages
    requires db.accounts.Keys <= after.accounts.Keys && after.commands.Keys == db.commands.Keys
    requires forall c :: c in db.commands ==>
               after.commands[c].account == db.commands[c].account && after.commands[c].key == db.commands[c].key
               && after.commands[c].message == db.commands[c].message
    ensures Schema(after)
  {
    assert forall d, a, p :: IsConversation(after, d, a, p) ==> IsConversation(db, d, a, p);
    assert forall d, a, k :: IsCommand(after, d, a, k) ==> IsCommand(db, d, a, k);
    assert forall o, c, p :: IsRow(after, o, c, p) ==> IsRow(db, o, c, p);
  }

  lemma SyncSchema(db: Db, account: string, provider: string, title: string, kind: string, draw: string)
    requires Schema(db)
    ensures Schema(SyncConversation(db, account, provider, title, kind, draw))
  {
    var found := ConversationOf(db, account, provider);
    if provider != "" && found.Some? {
      ReplaceConversation(db, found.value, db.conversations[found.value].(title := title, kind := kind));
    } else if provider != "" && account in db.accounts && draw !in db.conversations {
      AddConversation(db, draw, Conversation(account, provider, title, kind, 0, None));
    }
  }

  lemma SendOpSchema(db: Db, op: DbOp)
    requires Schema(db) && (op.OpPrepare? || op.OpComplete? || op.OpFail? || op.OpMark?)
    ensures Schema(Exec(db, op))
  {
    match op {
      case OpPrepare(user, conversation, body, key, now, draws) =>
        PrepareSchema(db, user, conversation, body, key, now, draws);
      case OpComplete(user, command, provider, sentAt, outbox) =>
        CompleteSchema(db, user, command, provider, sentAt, outbox);
      case OpFail(user, command, code, outbox) => FailSchema(db, user, command, code, outbox);
      case OpMark(command, now) => SameKeysSchema(db, MarkDispatched(db, command, now));
    }
  }

  lemma ExecSchema(db: Db, op: DbOp)
    requires Schema(db)
    ensures Schema(Exec(db, op))
  {
    match op {
      case OpIngest(caller, m, live, draws) => IngestSchema(db, caller, m, live, draws);
      case OpSync(account, provider, title, kind, draw) => SyncSchema(db, account, provider, title, kind, draw);
      case OpPrune(cutoff, keep) => DeleteMessagesSchema(db, Stale(db, cutoff, keep));
      case OpDeleteAccount(user, account) => DeleteAccountRowsSchema(db, account);
      case OpPruneOutbox(before) => SameKeysSchema(db, PruneOutbox(db, before));
      case OpDelivered(id, now) => SameKeysSchema(db, MarkDelivered(db, id, now));
      case OpCreateAccount(_, _) => SameKeysSchema(db, Exec(db, op));
      case _ => SendOpSchema(db, op);
    }
  }

  /** At most one row per (conversation, provider id), whatever transactions ran. */
  lemma {:induction false} ExecAllSchema(db: Db, ops: seq<DbOp>)
    requires Schema(db)
    ensures Schema(ExecAll(db, ops))
    decreases |ops|
  {
    if ops != [] {
      ExecSchema(db, ops[0]);
      ExecAllSchema(Exec(db, ops[0]), ops[1..]);
    }
  }
}

/** The message store as the API process runs it: each method is one transaction on the tables. */
module MessageStore {
  import opened Prelude
  import opened Protocol
  import opened Tables
  import opened Listing
  import opened MessageOps
  import opened DbRuns
  import opened Retention

  /** The newest key heads the ranking. */
  method TakeNewest(rest: set<Key>) returns (k: Key)
    requires rest != {}
    ensures k in rest && Ranked(rest) == [k] + Ranked(rest - {k})
  {
    k :| k in rest;
    var unseen := rest - {k};
    while unseen != {}
      invariant k in rest && unseen <= rest - {k}
      invariant forall o :: o in rest && o != k && o !in unseen ==> Newer(k, o)
      decreases |unseen|
    {
      var o :| o in unseen;
      unseen := unseen - {o};
      if Newer(o, k) {
        k := o;
      }
    }
    ghost var first := RankedFirst(rest);
    assert k == first;
  }

  /** INSERT INTO conversations ... ON CONFLICT (account_id, provider_id) DO UPDATE. */
  method UpsertConversationRow(tx: Db, caller: Caller, m: WireMessage, draws: Draws)
    returns (r: Option<(string, map<string, Conversation>)>)
    requires Schema(tx) && Acceptable(m)
    ensures r.None? <==> ConversationOf(tx, caller.account, m.conversationId).None?
                         && (caller.account !in tx.accounts || draws.conversation in tx.conversations)
    ensures r.Some? ==> r.value == UpsertConversation(tx, caller, m, draws)
  {
    var title, kind := m.authorName, "direct";
    if "group:" <= m.conversationId || (caller.platform == "telegram" && "-" <= m.conversationId) {
      title, kind := Capitalized(caller.platform) + " group", "group";
    }
    var conversations := tx.conversations;
    var c := draws.conversation;
    if exists k :: k in tx.conversations && IsConversation(tx, k, caller.account, m.conversationId) {
      c :| c in tx.conversations && IsConversation(tx, c, caller.account, m.conversationId);
      assert ConversationOf(tx, caller.account, m.conversationId) == Some(c);
      var row := conversations[c];
      if row.lastMessageAt.None? || m.sentAt.value > row.lastMessageAt.value {
        row := row.(lastMessageAt := m.sentAt);
      }
      conversations := conversations[c := row];
    } else {
      assert ConversationOf(tx, caller.account, m.conversationId).None?;
      if caller.account !in tx.accounts || c in conversations {
        return None;
      }
      conversations := conversations[c := Conversation(caller.account, m.conversationId, title, kind, 0, m.sentAt)];
    }
    r := Some((c, conversations));
  }

  /** Insert a message; on live delivery, count it if it came in and announce it. */
  method InsertRow(tx: Db, user: string, row: Message, live: bool, draws: Draws) returns (after: Option<Db>)
    requires row.conversation in tx.conversations
    ensures after.None? <==> draws.message in tx.messages || (live && draws.outbox in tx.outbox)
    ensures after.Some? ==>
              var c := tx.conversations[row.conversation];
              after.value == tx.(
                conversations := if live && row.direction == Incoming
                                 then tx.conversations[row.conversation := c.(unread := c.unread + 1)] else tx.conversations,
                messages := tx.messages[draws.message := row],
                outbox := if live then tx.outbox[draws.outbox := OutboxRow(user, MessageNew, draws.message, row, None)]
                          else tx.outbox)
  {
    if draws.message in tx.messages {
      return None;
    }
    var next := tx.(messages := tx.messages[draws.message := row]);
    if live && row.direction == Incoming {
      var c := next.conversations[row.conversation];
      next := next.(conversations := next.conversations[row.conversation := c.(unread := c.unread + 1)]);
    }
    if live {
      if draws.outbox in next.outbox {
        return None;
      }
      next := next.(outbox := next.outbox[draws.outbox := OutboxRow(user, MessageNew, draws.message, row, None)]);
    }
    after := Some(next);
  }

  /** Seven days. */
  const OUTBOX_AGE: int := 7 * 24 * 60 * 60

  class Store {
    var db: Db

    ghost predicate Valid()
      reads this
    {
      Schema(db)
    }

    constructor ()
      ensures Valid() && db == EMPTY
    {
      db := EMPTY;
    }

    /** IngestMessage when `live`, CacheMessage otherwise. */
    method IngestMessage(caller: Caller, m: WireMessage, live: bool, draws: Draws)
      returns (stored: Option<MessageId>, inserted: bool)
      requires Valid()
      modifies this
      ensures Valid()
      ensures match Ingest(old(db), caller, m, live, draws)
              case IngestError => stored == None && db == old(db)
              case IngestOk(after, id, first) => stored == Some(id) && inserted == first && db == after
    {
      stored, inserted := None, false;
      IngestSchema(db, caller, m, live, draws);
      if m.providerMessageId == "" || m.conversationId == "" || m.sentAt.None? {
        return;
      }
      var direction := DirectionOf(m.direction);
      if direction.None? {
        return;
      }
      var tx := db;
      var upserted := UpsertConversationRow(tx, caller, m, draws);
      if upserted.None? {
        return;
      }
      var c, conversations := upserted.value.0, upserted.value.1;
      tx := tx.(conversations := conversations);
      // INSERT INTO messages ... ON CONFLICT (conversation_id, provider_id) DO NOTHING
      if exists id :: id in tx.messages && HasKey(tx.messages[id], c, m.providerMessageId) {
        var id :| id in tx.messages && HasKey(tx.messages[id], c, m.providerMessageId);
        assert IsRow(old(db), id, c, m.providerMessageId);
        db := tx;
        return Some(id), false;
      }
      assert RowOf(old(db), c, m.providerMessageId).None?;
      var row := Message(c, Some(m.providerMessageId), m.authorName, m.body, m.sentAt.value, direction.value, Sent);
      var after := InsertRow(tx, caller.user, row, live, draws);
      if after.None? {
        return;
      }
      db := after.value;
      return Some(draws.message), true;
    }

    method PrepareSend(user: string, conversation: string, body: string, key: string, now: Instant, draws: Draws)
      returns (r: PrepareResult)
      requires Valid()
      modifies this
      ensures Valid()
      ensures r == MessageOps.PrepareSend(old(db), user, conversation, body, key, now, draws)
      ensures db == if r.Prepared? then r.db else old(db)
    {
      PrepareSchema(db, user, conversation, body, key, now, draws);
      var tx := db;
      if conversation !in tx.conversations || !Owns(tx, user, tx.conversations[conversation].account) {
        return ConversationNotFound;
      }
      var account := tx.conversations[conversation].account;
      // INSERT INTO commands ... ON CONFLICT (account_id, idempotency_key) DO NOTHING
      if exists c :: c in tx.commands && IsCommand(tx, c, account, key) {
        return KeyTaken(account);
      }
      assert CommandOf(tx, account, key).None?;
      if draws.command in tx.commands {
        return PrepareError;
      }
      tx := tx.(commands := tx.commands[draws.command := Command(account, None, key, Pending, now + COMMAND_LIFETIME)]);
      if draws.message in tx.messages {
        return PrepareError;
      }
      tx := tx.(messages := tx.messages[draws.message := PendingRow(conversation, body, now)]);
      tx := tx.(commands := tx.commands[draws.command := tx.commands[draws.command].(message := Some(draws.message))]);
      tx := tx.(conversations := tx.conversations[conversation := tx.conversations[conversation].(lastMessageAt := Some(now))]);
      db := tx;
      r := Prepared(tx, account, draws.command);
      assert r == MessageOps.PrepareSend(old(db), user, conversation, body, key, now, draws);
    }

    /** The command of a repeated send, with `created` telling whether it may still be dispatched. */
    method ExistingSend(account: string, key: string) returns (command: Option<string>, created: bool)
      requires Valid()
      ensures command == MessageOps.ExistingSend(db, account, key)
      ensures created <==> command.Some? && db.commands[command.value].status == Pending
    {
      command, created := None, false;
      if exists c :: c in db.commands && IsCommand(db, c, account, key) && db.commands[c].message.Some? {
        var c :| c in db.commands && IsCommand(db, c, account, key) && db.commands[c].message.Some?;
        assert CommandOf(db, account, key) == Some(c);
        return Some(c), db.commands[c].status == Pending;
      }
    }

    method MarkCommandDispatched(command: string, now: Instant) returns (dispatched: bool)
      requires Valid()
      modifies this
      ensures Valid()
      ensures db == MarkDispatched(old(db), command, now)
      ensures dispatched <==> Dispatchable(old(db), command, now)
    {
      ExecSchema(db, OpMark(command, now));
      dispatched := command in db.commands && db.commands[command].status == Pending && db.commands[command].expiresAt > now;
      if dispatched {
        db := db.(commands := db.commands[command := db.commands[command].(status := Dispatched)]);
      }
    }

    method CompleteSend(user: string, command: string, provider: string, sentAt: Instant, outbox: nat)
      returns (r: FinishResult)
      requires Valid()
      modifies this
      ensures Valid()
      ensures r == MessageOps.CompleteSend(old(db), user, command, provider, sentAt, outbox)
      ensures db == if r.Finished? then r.db else old(db)
    {
      CompleteSchema(db, user, command, provider, sentAt, outbox);
      var tx := db;
      if command !in tx.commands || !Owns(tx, user, tx.commands[command].account) || tx.commands[command].message.None?
         || tx.commands[command].message.value !in tx.messages {
        return FinishNotFound;
      }
      var id := tx.commands[command].message.value;
      var row := tx.messages[id];
      if provider != "" {
        // DELETE FROM messages WHERE conversation_id = ... AND provider_id = ... AND id <> ...
        tx := DeleteMessages(tx, Echoes(tx, row.conversation, provider, id));
      } else {
        assert DeleteMessages(tx, {}) == tx by {
          assert DeleteMessages(tx, {}).commands == tx.commands;
        }
      }
      row := row.(provider := if provider == "" then None else Some(provider), sentAt := sentAt, status := Sent);
      tx := tx.(messages := tx.messages[id := row]);
      tx := tx.(commands := tx.commands[command := tx.commands[command].(status := Completed)]);
      if outbox in tx.outbox {
        return FinishError;
      }
      tx := tx.(outbox := tx.outbox[outbox := OutboxRow(user, MessageUpdated, id, row, None)]);
      db := tx;
      r := Finished(tx);
    }

    method FailSend(user: string, command: string, code: string, outbox: nat) returns (r: FinishResult)
      requires Valid()
      modifies this
      ensures Valid()
      ensures r == MessageOps.FailSend(old(db), user, command, code, outbox)
      ensures db == if r.Finished? then r.db else old(db)
    {
      FailSchema(db, user, command, code, outbox);
      var commandStatus, messageStatus := Failed, SendFailed;
      if code == "worker_timeout" || code == "signal_send_unknown" {
        commandStatus, messageStatus := Unknown, SendUnknown;
      }
      var tx := db;
      if command !in tx.commands || !Owns(tx, user, tx.commands[command].account) {
        return FinishNotFound;
      }
      if tx.commands[command].message.None? {
        return FinishError;
      }
      var id := tx.commands[command].message.value;
      tx := tx.(commands := tx.commands[command := tx.commands[command].(status := commandStatus)]);
      if id !in tx.messages || outbox in tx.outbox {
        return FinishError;
      }
      var row := tx.messages[id].(status := messageStatus);
      tx := tx.(messages := tx.messages[id := row]);
      tx := tx.(outbox := tx.outbox[outbox := OutboxRow(user, MessageUpdated, id, row, None)]);
      db := tx;
      r := Finished(tx);
    }

    /** Two statements, not one transaction: `outboxFails` leaves the messages pruned. The second reads the
        time again, and drops what was delivered more than seven days before. */
    method Prune(now: Instant, retention: int, keep: int, later: Instant, outboxFails: bool)
      returns (deleted: Option<nat>)
      requires Valid()
      modifies this
      ensures Valid()
      ensures retention <= 0 || keep < 0 ==> deleted.None? && db == old(db)
      ensures retention > 0 && keep >= 0 ==>
                var pruned := PruneMessages(old(db), now - retention, keep);
                if outboxFails then deleted.None? && db == pruned
                else deleted == Some(|Stale(old(db), now - retention, keep)|) && db == PruneOutbox(pruned, later - 604_800)
    {
      if retention <= 0 || keep < 0 {
        return None;
      }
      var gone := Stale(db, now - retention, keep);
      ExecSchema(db, OpPrune(now - retention, keep));
      db := DeleteMessages(db, gone);
      if outboxFails {
        return None;
      }
      ExecSchema(db, OpPruneOutbox(later - OUTBOX_AGE));
      db := PruneOutbox(db, later - OUTBOX_AGE);
      deleted := Some(|gone|);
    }

    /** The newest hundred messages of an owned conversation, newest first. */
    method ListMessages(user: string, conversation: string) returns (page: Option<(seq<Key>, seq<Option<Message>>)>)
      requires Valid()
      ensures page == Page(db, user, conversation)
    {
      if conversation !in db.conversations || !Owns(db, user, db.conversations[conversation].account) {
        return None;
      }
      var keys := NewestKeys(RowKeys(db, conversation));
      page := Some((keys, RowsAt(db, keys)));
    }
  }

  /** ORDER BY sent_at DESC, id DESC LIMIT 100. */
  method NewestKeys(rows: set<Key>) returns (keys: seq<Key>)
    ensures keys == First(Ranked(rows), PAGE)
  {
    var rest := rows;
    keys := [];
    while rest != {} && |keys| < PAGE
      invariant |keys| <= PAGE
      invariant keys + Ranked(rest) == Ranked(rows)
      decreases |rest|
    {
      var k := TakeNewest(rest);
      keys := keys + [k];
      rest := rest - {k};
    }
    if rest == {} {
      RankedEmpty();
    }
  }
}

/** What each transaction of the message store means, told in the fields of the rows. */
module Transactions {
  import opened Prelude
  import opened Protocol
  import opened Tables
  import opened Listing
  import opened MessageOps
  import opened DbRuns

  // ---- ingest ------------------------------------------------------------------

  predicate IsComplete(m: WireMessage) {
    && m.providerMessageId != "" && m.conversationId != "" && m.sentAt != None
    && (m.direction == "incoming" || m.direction == "outgoing")
  }

  /** The row is the message: its conversation's, with the wire's id, author, body, time and direction. */
  predicate IsRowOf(row: Message, c: string, m: WireMessage) {
    && row.conversation == c && row.provider == Some(m.providerMessageId)
    && row.author == m.authorName && row.body == m.body && m.sentAt == Some(row.sentAt)
    && (row.direction == Incoming <==> m.direction == "incoming")
    && (row.direction == Outgoing <==> m.direction == "outgoing")
    && row.status == Sent
  }

  /** A conversation first seen: named after the author, or after the platform if it is a group. */
  predicate IsFirstSeen(row: Conversation, caller: Caller, m: WireMessage) {
    var group := "group:" <= m.conversationId || (caller.platform == "telegram" && "-" <= m.conversationId);
    && row.account == caller.account && row.provider == m.conversationId && row.lastMessageAt == m.sentAt
    && (group ==> row.kind == "group")
    && (group && caller.platform == "signal" ==> row.title == "Signal group")
    && (group && caller.platform == "telegram" ==> row.title == "Telegram group")
    && (!group ==> row.kind == "direct" && row.title == m.authorName)
  }

  predicate IsLaterOf(last: Option<Instant>, before: Option<Instant>, at: Instant) {
    last == Some(if before.Some? && before.value >= at then before.value else at)
  }

  lemma IngestAccepts(db: Db, caller: Caller, m: WireMessage, live: bool, draws: Draws)
    ensures !IsComplete(m) ==> Ingest(db, caller, m, live, draws).IngestError?
    ensures IsComplete(m) && caller.account in db.accounts && draws.conversation !in db.conversations
            && draws.message !in db.messages && draws.outbox !in db.outbox ==>
              Ingest(db, caller, m, live, draws).IngestOk?
  {
  }

  /** The conversation of the message: the account's, found or added, and no earlier than before. */
  lemma IngestConversation(db: Db, caller: Caller, m: WireMessage, live: bool, draws: Draws) returns (c: string)
    requires Schema(db) && Ingest(db, caller, m, live, draws).IngestOk?
    ensures IsComplete(m)
    ensures var after := Ingest(db, caller, m, live, draws).db;
            && c in after.conversations && after.conversations.Keys == db.conversations.Keys + {c}
            && after.conversations[c].account == caller.account && after.conversations[c].provider == m.conversationId
            && (forall d :: d in db.conversations && d != c ==> after.conversations[d] == db.conversations[d])
            && (c in db.conversations ==>
                  && IsLaterOf(after.conversations[c].lastMessageAt, db.conversations[c].lastMessageAt, m.sentAt.value)
                  && after.conversations[c].title == db.conversations[c].title
                  && after.conversations[c].kind == db.conversations[c].kind)
    ensures c == UpsertConversation(db, caller, m, draws).0
  {
    var (d, conversations) := UpsertConversation(db, caller, m, draws);
    c := d;
  }

  lemma IngestFirstSeen(db: Db, caller: Caller, m: WireMessage, live: bool, draws: Draws, c: string)
    requires Ingest(db, caller, m, live, draws).IngestOk? && c !in db.conversations
    requires c in Ingest(db, caller, m, live, draws).db.conversations
    ensures IsFirstSeen(Ingest(db, caller, m, live, draws).db.conversations[c], caller, m)
  {
    Titles(caller, m);
  }

  lemma Titles(caller: Caller, m: WireMessage)
    ensures IsGroup(caller.platform, m.conversationId) <==>
              "group:" <= m.conversationId || (caller.platform == "telegram" && "-" <= m.conversationId)
    ensures IsGroup(caller.platform, m.conversationId) ==> KindFor(caller, m) == "group"
    ensures IsGroup(caller.platform, m.conversationId) && caller.platform == "signal" ==> TitleFor(caller, m) == "Signal group"
    ensures IsGroup(caller.platform, m.conversationId) && caller.platform == "telegram" ==> TitleFor(caller, m) == "Telegram group"
    ensures !IsGroup(caller.platform, m.conversationId) ==> KindFor(caller, m) == "direct" && TitleFor(caller, m) == m.authorName
  {
    assert Capitalized("signal") == "Signal";
    assert Capitalized("telegram") == "Telegram";
  }

  /** The row: inserted if and only if the conversation had none with the provider's id; live delivery then
      announces it to the account's user and counts it as unread if it came in. */
  lemma IngestRow(db: Db, caller: Caller, m: WireMessage, live: bool, draws: Draws) returns (c: string)
    requires Schema(db) && Ingest(db, caller, m, live, draws).IngestOk?
    ensures var r := Ingest(db, caller, m, live, draws);
            && c in r.db.conversations && r.db.conversations[c].account == caller.account
            && r.db.conversations[c].provider == m.conversationId
            && r.id in r.db.messages
            && r.db.accounts == db.accounts && r.db.commands == db.commands
            && (r.inserted <==> forall o :: o in db.messages ==>
                  !(db.messages[o].conversation == c && db.messages[o].provider == Some(m.providerMessageId)))
            && (r.inserted ==>
                  && r.id !in db.messages && IsRowOf(r.db.messages[r.id], c, m)
                  && r.db.messages == db.messages[r.id := r.db.messages[r.id]]
                  && (live ==> draws.outbox !in db.outbox)
                  && r.db.outbox == (if live
                       then db.outbox[draws.outbox := OutboxRow(caller.user, MessageNew, r.id, r.db.messages[r.id], None)]
                       else db.outbox))
            && (!r.inserted ==> r.db.messages == db.messages && r.db.outbox == db.outbox)
            && r.db.conversations[c].unread ==
                 (if c in db.conversations then db.conversations[c].unread else 0)
                 + (if r.inserted && live && m.direction == "incoming" then 1 else 0)
  {
    c := IngestConversation(db, caller, m, live, draws);
    var r := Ingest(db, caller, m, live, draws);
    var existing := RowOf(db, c, m.providerMessageId);
    if existing.Some? {
      assert IsRow(db, existing.value, c, m.providerMessageId);
    } else {
      forall o | o in db.messages
        ensures !(db.messages[o].conversation == c && db.messages[o].provider == Some(m.providerMessageId))
      {
        assert !IsRow(db, o, c, m.providerMessageId);
      }
    }
  }

  // ---- sends -------------------------------------------------------------------

  predicate IsOwned(db: Db, user: string, conversation: string) {
    && conversation in db.conversations
    && db.conversations[conversation].account in db.accounts
    && db.accounts[db.conversations[conversation].account].user == user
  }

  ghost predicate KeyInUse(db: Db, account: string, key: string) {
    exists c :: c in db.commands && db.commands[c].account == account && db.commands[c].key == key
  }

  lemma KeyLookup(db: Db, account: string, key: string)
    ensures CommandOf(db, account, key).Some? <==> KeyInUse(db, account, key)
  {
    if KeyInUse(db, account, key) {
      var c :| c in db.commands && db.commands[c].account == account && db.commands[c].key == key;
      assert IsCommand(db, c, account, key);
    }
  }

  /** Which of its answers a preparation gives, and the rows a new send consists of. */
  lemma PrepareMeans(db: Db, user: string, conversation: string, body: string, key: string, now: Instant, draws: Draws)
    ensures var r := PrepareSend(db, user, conversation, body, key, now, draws);
            && (r.ConversationNotFound? <==> !IsOwned(db, user, conversation))
            && (r.KeyTaken? <==> IsOwned(db, user, conversation) && KeyInUse(db, db.conversations[conversation].account, key))
            && (r.KeyTaken? ==> r.account == db.conversations[conversation].account)
            && (r.Prepared? <==>
                  && IsOwned(db, user, conversation) && !KeyInUse(db, db.conversations[conversation].account, key)
                  && draws.command !in db.commands && draws.message !in db.messages)
            && (r.Prepared? ==>
                  var account := db.conversations[conversation].account;
                  && r.account == account && r.command == draws.command
                  && r.db == Db(
                       db.accounts,
                       db.conversations[conversation := db.conversations[conversation].(lastMessageAt := Some(now))],
                       db.messages[draws.message := Message(conversation, None, "You", body, now, Outgoing, MessagePending)],
                       db.commands[draws.command := Command(account, Some(draws.message), key, Pending, now + 300)],
                       db.outbox))
  {
    if IsOwned(db, user, conversation) {
      KeyLookup(db, db.conversations[conversation].account, key);
    }
  }

  /** A repeated send finds its command exactly while the command still has its message. */
  lemma ExistingMeans(db: Db, account: string, key: string)
    requires UniqueKeys(db)
    ensures forall c :: ExistingSend(db, account, key) == Some(c) <==>
              c in db.commands && db.commands[c].account == account && db.commands[c].key == key
              && db.commands[c].message != None
  {
    forall c
      ensures ExistingSend(db, account, key) == Some(c) <==>
              c in db.commands && db.commands[c].account == account && db.commands[c].key == key
              && db.commands[c].message != None
    {
      assert IsCommand(db, c, account, key) <==>
          c in db.commands && db.commands[c].account == account && db.commands[c].key == key;
      if IsCommand(db, c, account, key) {
        assert CommandOf(db, account, key) == Some(c);
      }
    }
  }

  /** A mark takes effect if and only if the command is pending and unexpired, and then changes its status. */
  lemma MarkMeans(db: Db, command: string, now: Instant)
    ensures Dispatchable(db, command, now) <==>
              command in db.commands && db.commands[command].status == Pending && now < db.commands[command].expiresAt
    ensures MarkDispatched(db, command, now) ==
              if Dispatchable(db, command, now)
              then db.(commands := db.commands[command := db.commands[command].(status := Dispatched)]) else db
  {
  }

  /** The command can be settled: it is the user's, and its message is there. */
  predicate CanSettle(db: Db, user: string, command: string) {
    && command in db.commands && db.commands[command].account in db.accounts
    && db.accounts[db.commands[command].account].user == user
    && db.commands[command].message != None && db.commands[command].message.value in db.messages
  }

  /** The rows a completion deletes: others of the conversation that carry the provider's id. */
  predicate IsReplaced(db: Db, o: MessageId, id: MessageId, provider: string)
    requires id in db.messages
  {
    && provider != "" && o != id && o in db.messages
    && db.messages[o].conversation == db.messages[id].conversation && db.messages[o].provider == Some(provider)
  }

  lemma CompleteMeans(db: Db, user: string, command: string, provider: string, sentAt: Instant, outbox: nat)
    ensures var r := CompleteSend(db, user, command, provider, sentAt, outbox);
            && (r.Finished? <==> CanSettle(db, user, command) && outbox !in db.outbox)
            && (r.Finished? ==>
                  var id := db.commands[command].message.value;
                  var row := db.messages[id].(provider := if provider == "" then None else Some(provider),
                                              sentAt := sentAt, status := Sent);
                  && r.db.accounts == db.accounts && r.db.conversations == db.conversations
                  && r.db.outbox == db.outbox[outbox := OutboxRow(user, MessageUpdated, id, row, None)]
                  && id in r.db.messages && r.db.messages[id] == row
                  && (forall o :: o in r.db.messages <==> o in db.messages && !IsReplaced(db, o, id, provider))
                  && (forall o :: o in r.db.messages && o != id ==> r.db.messages[o] == db.messages[o]))
  {
  }

  lemma CompleteCommands(db: Db, user: string, command: string, provider: string, sentAt: Instant, outbox: nat)
    requires CanSettle(db, user, command) && outbox !in db.outbox
    ensures var after := CompleteSend(db, user, command, provider, sentAt, outbox).db;
            var id := db.commands[command].message.value;
            && after.commands.Keys == db.commands.Keys
            && after.commands[command] == db.commands[command].(status := Completed)
            && forall k :: k in db.commands && k != command ==>
                 after.commands[k] ==
                   if db.commands[k].message != None && IsReplaced(db, db.commands[k].message.value, id, provider)
                   then db.commands[k].(message := None) else db.commands[k]
  {
  }

  lemma FailMeans(db: Db, user: string, command: string, code: string, outbox: nat)
    ensures var r := FailSend(db, user, command, code, outbox);
            && (r.Finished? <==> CanSettle(db, user, command) && outbox !in db.outbox)
            && (r.Finished? ==>
                  var id := db.commands[command].message.value;
                  var unknown := code == "worker_timeout" || code == "signal_send_unknown";
                  var row := db.messages[id].(status := if unknown then SendUnknown else SendFailed);
                  r.db == Db(db.accounts, db.conversations, db.messages[id := row],
                             db.commands[command := db.commands[command].(status := if unknown then Unknown else Failed)],
                             db.outbox[outbox := OutboxRow(user, MessageUpdated, id, row, None)]))
  {
  }

  // ---- retention and deletion --------------------------------------------------

  /** Settled rows of the same conversation that are newer, by time and then id. */
  function NewerRows(db: Db, id: MessageId): set<MessageId>
    requires id in db.messages
  {
    set o | o in db.messages && db.messages[o].conversation == db.messages[id].conversation
            && db.messages[o].status != MessagePending
            && (db.messages[o].sentAt > db.messages[id].sentAt || (db.messages[o].sentAt == db.messages[id].sentAt && o > id))
  }

  lemma {:induction false} KeysCount(db: Db, ids: set<MessageId>, keys: set<Key>)
    requires forall o :: o in ids ==> o in db.messages
    requires keys == set o | o in ids :: KeyOf(db, o)
    ensures |keys| == |ids|
    decreases |ids|
  {
    if ids != {} {
      var o :| o in ids;
      var rest := set p | p in ids - {o} :: KeyOf(db, p);
      assert keys == rest + {KeyOf(db, o)};
      KeysCount(db, ids - {o}, rest);
    }
  }

  lemma PositionCounts(db: Db, id: MessageId)
    requires id in db.messages
    ensures Position(db, id) == |NewerRows(db, id)| + 1
  {
    var ahead := Preceding(SettledKeys(db, db.messages[id].conversation), Newer, KeyOf(db, id));
    var keys := set o | o in NewerRows(db, id) :: KeyOf(db, o);
    forall k
      ensures k in ahead <==> k in keys
    {
      if k in ahead {
        assert k.id in NewerRows(db, id) && KeyOf(db, k.id) == k;
      }
    }
    assert ahead == keys;
    KeysCount(db, NewerRows(db, id), keys);
  }

  /** A prune deletes a row if and only if it is settled, older than the cutoff, and has at least `keep` settled
      rows of its conversation newer than it; nothing else changes but the links to what is deleted. */
  lemma PruneMeans(db: Db, cutoff: Instant, keep: nat)
    ensures var after := PruneMessages(db, cutoff, keep);
            && after.accounts == db.accounts && after.conversations == db.conversations && after.outbox == db.outbox
            && (forall id :: id in after.messages ==> id in db.messages && after.messages[id] == db.messages[id])
            && (forall id :: id in db.messages ==>
                  (id !in after.messages <==>
                     && db.messages[id].status != MessagePending && db.messages[id].sentAt < cutoff
                     && |NewerRows(db, id)| >= keep))
            && after.commands.Keys == db.commands.Keys
            && (forall c :: c in db.commands ==>
                  after.commands[c] ==
                    if db.commands[c].message != None && db.commands[c].message.value in db.messages
                       && db.commands[c].message.value !in after.messages
                    then db.commands[c].(message := None) else db.commands[c])
  {
    var after := PruneMessages(db, cutoff, keep);
    forall id | id in db.messages
      ensures id !in after.messages <==>
                && db.messages[id].status != MessagePending && db.messages[id].sentAt < cutoff
                && |NewerRows(db, id)| >= keep
    {
      PositionCounts(db, id);
    }
  }

  /** Retention removes an outbox row if and only if it was delivered before the time. */
  lemma PruneOutboxMeans(db: Db, before: Instant)
    ensures var after := PruneOutbox(db, before);
            && after == db.(outbox := after.outbox)
            && (forall i :: i in after.outbox <==>
                  i in db.outbox && !(db.outbox[i].deliveredAt != None && db.outbox[i].deliveredAt.value < before))
            && (forall i :: i in after.outbox ==> after.outbox[i] == db.outbox[i])
  {
  }

  /** A mark records the time on an undelivered row, once, and changes nothing else. */
  lemma DeliveredMeans(db: Db, id: nat, now: Instant)
    ensures MarkDelivered(db, id, now) ==
              if id in db.outbox && db.outbox[id].deliveredAt == None
              then db.(outbox := db.outbox[id := db.outbox[id].(deliveredAt := Some(now))]) else db
  {
  }

  /** Deleting an account takes its conversations, their messages and its commands, and nothing of anyone else's. */
  lemma DeleteAccountMeans(db: Db, user: string, account: string)
    requires Schema(db)
    ensures var after := Exec(db, OpDeleteAccount(user, account));
            if account in db.accounts && db.accounts[account].user == user then
              && after.accounts == db.accounts - {account} && after.outbox == db.outbox
              && (forall c :: c in after.conversations <==> c in db.conversations && db.conversations[c].account != account)
              && (forall c :: c in after.conversations ==> after.conversations[c] == db.conversations[c])
              && (forall m :: m in after.messages <==>
                    m in db.messages && db.conversations[db.messages[m].conversation].account != account)
              && (forall m :: m in after.messages ==> after.messages[m] == db.messages[m])
              && (forall k :: k in after.commands <==> k in db.commands && db.commands[k].account != account)
              && (forall k :: k in after.commands ==>
                    after.commands[k] == db.commands[k].(message := after.commands[k].message)
                    && (after.commands[k].message == db.commands[k].message
                        || (after.commands[k].message == None && db.commands[k].message.value !in after.messages)))
            else after == db
  {
  }

  /** A conversation sync names a known conversation or adds one; it does not touch activity, counts or messages. */
  lemma SyncMeans(db: Db, account: string, provider: string, title: string, kind: string, draw: string)
    requires Schema(db)
    ensures var after := SyncConversation(db, account, provider, title, kind, draw);
            && after == db.(conversations := after.conversations)
            && (forall c :: c in db.conversations ==>
                  c in after.conversations
                  && after.conversations[c] ==
                       if provider != "" && db.conversations[c].account == account && db.conversations[c].provider == provider
                       then db.conversations[c].(title := title, kind := kind) else db.conversations[c])
            && (forall c :: c in after.conversations && c !in db.conversations ==>
                  c == draw && after.conversations[c] == Conversation(account, provider, title, kind, 0, None))
            && (provider != "" && account in db.accounts && draw !in db.conversations ==>
                  exists c :: c in after.conversations && after.conversations[c].account == account
                              && after.conversations[c].provider == provider && after.conversations[c].title == title)
  {
    var after := SyncConversation(db, account, provider, title, kind, draw);
    var found := ConversationOf(db, account, provider);
    forall c | c in db.conversations && db.conversations[c].account == account && db.conversations[c].provider == provider
      ensures found == Some(c)
    {
      assert IsConversation(db, c, account, provider);
    }
    if provider != "" && account in db.accounts && draw !in db.conversations {
      var c := if found.Some? then found.value else draw;
      assert c in after.conversations && after.conversations[c].title == title;
    }
  }
}
